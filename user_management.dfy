/** The directory of accounts, keyed by login: creation with its validation
    order, lookup, and the account-deletion cascade over every other user. */
module UserManagement {
  import opened Errors
  import opened Accounts
  import opened Profiles

  /** Account creation: the login is checked first, then the password, then
      uniqueness; a refused request stores nothing. */
  function CreateUser(us: Users, login: string, senha: string, nome: string): (Outcome, Users)
  {
    if login == "" then (Fail(InvalidLogin), us)
    else if senha == "" then (Fail(InvalidPassword), us)
    else if login in us then (Fail(AccountExists), us)
    else (Pass, us[login := NewUser(login, senha, nome)])
  }

  function RemoveUser(us: Users, login: string): (r: Users)
    ensures r.Keys == us.Keys - {login}
    ensures forall l :: l in r ==> r[l] == Detach(us[l], login)
  {
    map l | l in us && l != login :: Detach(us[l], login)
  }

  /** The deletion cascade as evidently intended: every remaining user
      forgets `login` in all its relation sets. */
  function RemoveUserCleanly(us: Users, login: string): (r: Users)
    ensures r.Keys == us.Keys - {login}
    ensures forall l :: l in r ==> r[l] == DetachAll(us[l], login)
  {
    map l | l in us && l != login :: DetachAll(us[l], login)
  }

  class UserManager {
    var usuarios: map<string, Usuario>

    /** Every account is stored under its own login and owns its own profile. */
    ghost predicate Valid()
      reads this
    {
      && (forall l :: l in usuarios ==> usuarios[l].login == l)
      && (forall l, m :: l in usuarios && m in usuarios && l != m ==> usuarios[l].perfil != usuarios[m].perfil)
    }

    /** The user objects and their profiles. */
    ghost function Objects(): set<object>
      reads this
    {
      (set l | l in usuarios :: usuarios[l] as object) + (set l | l in usuarios :: usuarios[l].perfil as object)
    }

    /** The whole directory as a value. */
    ghost function View(): (v: Users)
      reads this, Objects()
      ensures v.Keys == usuarios.Keys
    {
      map l | l in usuarios :: usuarios[l].Data()
    }

    /** The directory's value, read off account by account. */
    lemma ViewIs(expected: Users)
      requires expected.Keys == usuarios.Keys
      requires forall l :: l in usuarios ==> usuarios[l].Data() == expected[l]
      ensures View() == expected
    {
    }

    /** When a step changed at most the accounts `par.0` and `par.1` (and no
        profile), the directory changed at most at those two keys. */
    twostate lemma ViewAfterPair(par: (string, string))
      requires old(Valid()) && usuarios == old(usuarios)
      requires par.0 in usuarios && par.1 in usuarios
      requires forall l :: l in usuarios && l != par.0 && l != par.1 ==> unchanged(usuarios[l])
      requires forall l :: l in usuarios ==> unchanged(usuarios[l].perfil)
      ensures View() == old(View())[par.0 := usuarios[par.0].Data()][par.1 := usuarios[par.1].Data()]
      ensures usuarios[par.0].Data() == old(usuarios[par.0].Data()) && usuarios[par.1].Data() == old(usuarios[par.1].Data()) ==>
        View() == old(View())
    {
      var (a, b) := par;
      var esperado := old(View())[a := usuarios[a].Data()][b := usuarios[b].Data()];
      forall l | l in usuarios ensures usuarios[l].Data() == esperado[l] {
        if l != a && l != b {
          assert unchanged(usuarios[l]) && unchanged(usuarios[l].perfil);
          assert usuarios[l].Data() == old(usuarios[l].Data());
        }
      }
      ViewIs(esperado);
      if usuarios[a].Data() == old(usuarios[a].Data()) && usuarios[b].Data() == old(usuarios[b].Data()) {
        ViewIs(old(View()));
      }
    }

    /** When a step changed at most the account `a` and its profile, the
        directory changed at most at that key. */
    twostate lemma ViewAfterOne(a: string)
      requires old(Valid()) && usuarios == old(usuarios)
      requires a in usuarios
      requires forall l :: l in usuarios && l != a ==> unchanged(usuarios[l])
      requires forall l :: l in usuarios && l != a ==> unchanged(usuarios[l].perfil)
      ensures View() == old(View())[a := usuarios[a].Data()]
      ensures usuarios[a].Data() == old(usuarios[a].Data()) ==> View() == old(View())
    {
      var esperado := old(View())[a := usuarios[a].Data()];
      forall l | l in usuarios ensures usuarios[l].Data() == esperado[l] {
        if l != a {
          assert unchanged(usuarios[l]) && unchanged(usuarios[l].perfil);
          assert usuarios[l].Data() == old(usuarios[l].Data());
        }
      }
      ViewIs(esperado);
      if usuarios[a].Data() == old(usuarios[a].Data()) {
        ViewIs(old(View()));
      }
    }

    /** A step that touched neither the map, nor any account, nor any
        profile kept the view. */
    twostate lemma ViewKept()
      requires usuarios == old(usuarios)
      requires forall l :: l in usuarios ==> unchanged(usuarios[l]) && unchanged(usuarios[l].perfil)
      ensures View() == old(View()) && (old(Valid()) ==> Valid())
    {
      ViewIs(old(View()));
    }

    constructor ()
      ensures Valid() && usuarios == map[]
    {
      usuarios := map[];
    }

    method CriarUsuario(login: string, senha: string, nome: string) returns (out: Outcome)
      requires Valid()
      modifies this
      ensures Valid()
      ensures (out, View()) == CreateUser(old(View()), login, senha, nome)
      ensures forall l :: l in old(usuarios) ==> l in usuarios && usuarios[l] == old(usuarios[l])
      ensures forall l :: l in usuarios && l !in old(usuarios) ==> fresh(usuarios[l]) && fresh(usuarios[l].perfil)
      ensures usuarios.Keys <= old(usuarios.Keys) + {login}
    {
      if login == "" {
        return Fail(InvalidLogin);
      }
      if senha == "" {
        return Fail(InvalidPassword);
      }
      if login in usuarios {
        return Fail(AccountExists);
      }
      ghost var antes := View();
      var u := new Usuario(login, senha, nome);
      usuarios := usuarios[login := u];
      ViewIs(antes[login := NewUser(login, senha, nome)]);
      out := Pass;
    }

    /** The account stored under `login`, or null. */
    function GetUsuario(login: string): (u: Usuario?)
      reads this
      ensures u == null <==> login !in usuarios
      ensures u != null ==> u == usuarios[login]
    {
      if login in usuarios then usuarios[login] else null
    }

    predicate ContainsUsuario(login: string)
      reads this
    {
      login in usuarios
    }

    /** Deletes the account and runs the cascade over every user (the
        deleted one included, as in the source). */
    method RemoverUsuario(usuario: Usuario)
      requires Valid()
      modifies this, usuarios.Values
      ensures Valid()
      ensures usuarios == old(usuarios) - {usuario.login}
      ensures View() == RemoveUser(old(View()), usuario.login)
    {
      var login := usuario.login;
      ghost var antes := View();
      DesvincularTodos(login);
      usuarios := usuarios - {login};
      ghost var esperado := RemoveUser(antes, login);
      forall l | l in usuarios ensures usuarios[l].Data() == esperado[l] {
        assert antes[l] == old(usuarios[l].Data());
      }
      ViewIs(esperado);
    }

    /** The loop of the cascade: every stored account is detached from `login`. */
    method DesvincularTodos(login: string)
      requires Valid()
      modifies usuarios.Values
      ensures usuarios == old(usuarios)
      ensures forall l :: l in usuarios ==> usuarios[l].Data() == Detach(old(usuarios[l].Data()), login)
    {
      var pendentes := usuarios.Keys;
      while pendentes != {}
        invariant pendentes <= usuarios.Keys
        invariant forall l :: l in usuarios ==>
          usuarios[l].Data() == (if l in pendentes then old(usuarios[l].Data()) else Detach(old(usuarios[l].Data()), login))
        decreases pendentes
      {
        var l :| l in pendentes;
        var outro := usuarios[l];
        outro.Desvincular(login);
        pendentes := pendentes - {l};
      }
    }

    method Clear()
      modifies this
      ensures Valid() && usuarios == map[] && View() == map[]
    {
      usuarios := map[];
    }
  }

  // ---------------------------------------------------------------------
  // Properties of the directory

  /** Creation checks the login, then the password, then uniqueness; a
      refused request stores nothing, an accepted one stores exactly the new
      account and keeps every other. */
  lemma CreateUserEffect(us: Users, login: string, senha: string, nome: string)
    ensures var (out, us') := CreateUser(us, login, senha, nome);
      && (login == "" ==> out == Fail(InvalidLogin))
      && (login != "" && senha == "" ==> out == Fail(InvalidPassword))
      && (login != "" && senha != "" && login in us ==> out == Fail(AccountExists))
      && (out.Fail? ==> us' == us)
      && (out == Pass <==> login != "" && senha != "" && login !in us)
      && (out == Pass ==>
            && us'.Keys == us.Keys + {login}
            && us'[login].login == login && us'[login].senha == senha && us'[login].nome == nome
            && (forall l :: l in us ==> us'[l] == us[l]))
  {
  }

  /** The cascade as written: the account is gone, nobody keeps it as an
      enemy, its notes are purged everywhere, and every other relation set
      of the remaining users is left as it was. */
  lemma RemoveUserEffect(us: Users, login: string)
    ensures var us' := RemoveUser(us, login);
      && login !in us'
      && us'.Keys == us.Keys - {login}
      && (forall l :: l in us' ==> login !in us'[l].inimigos)
      && (forall l, t :: l in us' && t in us'[l].autoresRecados ==> us'[l].autoresRecados[t] != login)
      && (forall l :: l in us' ==>
            us'[l].recadosRecebidos == FilterNotes(us[l].recadosRecebidos, us[l].autoresRecados, login))
      && (forall l :: l in us' ==>
            && us'[l].amigos == us[l].amigos
            && us'[l].convitesEnviados == us[l].convitesEnviados
            && us'[l].convitesRecebidos == us[l].convitesRecebidos
            && us'[l].idolos == us[l].idolos
            && us'[l].fas == us[l].fas
            && us'[l].paqueras == us[l].paqueras
            && us'[l].mensagensRecebidas == us[l].mensagensRecebidas)
  {
  }

  /** Because the cascade edits copies, a friend of a deleted account still
      lists its login, which no longer names anyone. */
  lemma RemoveUserLeavesDanglingFriend(us: Users, login: string, amigo: string)
    requires amigo in us && amigo != login && login in us[amigo].amigos
    ensures amigo in RemoveUser(us, login) && login in RemoveUser(us, login)[amigo].amigos
    ensures login !in RemoveUser(us, login)
  {
  }
}
