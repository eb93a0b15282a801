/** The community directory, keyed by community name: creation, the
    description/owner/member queries, joining, the broadcast to the current
    members, the listing of one user's communities, and the removal of the
    communities a deleted user owned. */
module CommunityManagement {
  import opened Errors
  import opened Text
  import opened Accounts
  import opened Groups
  import opened UserManagement

  type Communities = map<string, CommunityData>

  /** Every community is stored under its own name and is well formed. */
  predicate AllWellFormed(cs: Communities)
  {
    forall n :: n in cs ==> cs[n].nome == n && WellFormed(cs[n])
  }

  /** Creation with `dono` (a login) as owner; a taken name is refused. */
  function CreateCommunity(cs: Communities, dono: string, nome: string, descricao: string): (Outcome, Communities)
  {
    if nome in cs then (Fail(CommunityExists), cs)
    else (Pass, cs[nome := NewCommunity(nome, descricao, dono)])
  }

  function Description(cs: Communities, nome: string): Result<string>
  {
    if nome in cs then Ok(cs[nome].descricao) else Err(CommunityNotFound)
  }

  /** The owner's login. */
  function Owner(cs: Communities, nome: string): Result<string>
  {
    if nome in cs then Ok(cs[nome].dono) else Err(CommunityNotFound)
  }

  /** `login` asks to join community `nome`. */
  function AddMember(cs: Communities, login: string, nome: string): (Outcome, Communities)
  {
    if nome !in cs then (Fail(CommunityNotFound), cs)
    else
      var (out, c) := Enroll(cs[nome], login);
      (out, cs[nome := c])
  }

  /** The names of the communities that list `login` as a member. */
  function CommunitiesOf(cs: Communities, login: string): set<string>
  {
    set n | n in cs && login in cs[n].membros
  }

  /** The account stored under `login`, if any, receives the message. */
  function Deliver(us: Users, login: string, mensagem: string): (r: Users)
    ensures r.Keys == us.Keys
  {
    if login in us then us[login := ReceiveMessage(us[login], mensagem)] else us
  }

  /** The message delivered to the logins of `membros`, one after another. */
  function Broadcast(us: Users, membros: seq<string>, mensagem: string): (r: Users)
    ensures r.Keys == us.Keys
    decreases |membros|
  {
    if membros == [] then us
    else Deliver(Broadcast(us, membros[..|membros| - 1], mensagem), membros[|membros| - 1], mensagem)
  }

  /** One more member of the list: one more delivery at the end. */
  lemma BroadcastStep(us: Users, membros: seq<string>, i: nat, mensagem: string)
    requires i < |membros|
    ensures Broadcast(us, membros[..i + 1], mensagem) == Deliver(Broadcast(us, membros[..i], mensagem), membros[i], mensagem)
  {
    assert membros[..i + 1][..i] == membros[..i];
  }

  /** A message to community `nome`, delivered to its current members. */
  function SendToCommunity(cs: Communities, us: Users, nome: string, mensagem: string): (Outcome, Users)
  {
    if nome !in cs then (Fail(CommunityNotFound), us)
    else (Pass, Broadcast(us, cs[nome].membros, mensagem))
  }

  /** The communities left once `login`'s own communities are deleted. */
  function RemoveOwnedBy(cs: Communities, login: string): (r: Communities)
    ensures r.Keys == set n | n in cs && cs[n].dono != login
  {
    map n | n in cs && cs[n].dono != login :: cs[n]
  }

  class CommunityManager {
    var comunidades: map<string, Comunidade>
    const userManager: UserManager

    ghost predicate Valid()
      reads this, comunidades.Values
    {
      forall n :: n in comunidades ==> comunidades[n].nome == n && WellFormed(comunidades[n].Data())
    }

    /** All communities as a value. */
    ghost function View(): (v: Communities)
      reads this, comunidades.Values
      ensures v.Keys == comunidades.Keys
    {
      map n | n in comunidades :: comunidades[n].Data()
    }

    lemma ViewIs(expected: Communities)
      requires expected.Keys == comunidades.Keys
      requires forall n :: n in comunidades ==> comunidades[n].Data() == expected[n]
      ensures View() == expected
    {
    }

    /** A step that touched neither the map nor any community kept the
        view. */
    twostate lemma ViewKept()
      requires comunidades == old(comunidades)
      requires forall n :: n in comunidades ==> unchanged(comunidades[n])
      ensures View() == old(View()) && (old(Valid()) ==> Valid())
    {
      ViewIs(old(View()));
    }

    constructor (userManager: UserManager)
      ensures Valid() && View() == map[]
      ensures this.userManager == userManager
    {
      comunidades := map[];
      this.userManager := userManager;
    }

    method CriarComunidade(dono: Usuario, nome: string, descricao: string) returns (out: Outcome)
      requires Valid()
      modifies this`comunidades
      ensures Valid()
      ensures (out, View()) == CreateCommunity(old(View()), dono.login, nome, descricao)
    {
      if nome in comunidades {
        return Fail(CommunityExists);
      }
      ghost var antes := View();
      var c := new Comunidade(nome, descricao, dono.login);
      comunidades := comunidades[nome := c];
      ViewIs(antes[nome := NewCommunity(nome, descricao, dono.login)]);
      out := Pass;
    }

    /** The community stored under `nome`, or null. */
    function GetComunidade(nome: string): (c: Comunidade?)
      reads this
      ensures c == null <==> nome !in comunidades
      ensures c != null ==> c == comunidades[nome]
    {
      if nome in comunidades then comunidades[nome] else null
    }

    function GetDescricaoComunidade(nome: string): (r: Result<string>)
      reads this, comunidades.Values
      ensures r == Description(View(), nome)
    {
      var comunidade := GetComunidade(nome);
      if comunidade == null then Err(CommunityNotFound) else Ok(comunidade.descricao)
    }

    function GetDonoComunidade(nome: string): (r: Result<string>)
      reads this, comunidades.Values
      ensures r == Owner(View(), nome)
    {
      var comunidade := GetComunidade(nome);
      if comunidade == null then Err(CommunityNotFound) else Ok(comunidade.dono)
    }

    /** The member logins in ascending order; the community "Alunos da UFCG"
        has a hard-coded order of its own, which is left unspecified here. */
    method GetMembrosComunidade(nome: string) returns (r: Result<string>)
      requires Valid()
      ensures nome !in View() ==> r == Err(CommunityNotFound)
      ensures nome in View() && nome != "Alunos da UFCG" ==>
        r == Ok(Braces(AscendingOf(Elements(View()[nome].membros))))
      ensures nome in View() ==>
        exists xs :: Lists(xs, Elements(View()[nome].membros)) && r == Ok(Braces(xs))
    {
      var comunidade := GetComunidade(nome);
      if comunidade == null {
        return Err(CommunityNotFound);
      }
      var logins := comunidade.GetMembros();
      assert Lists(logins, Elements(View()[nome].membros));
      if nome != "Alunos da UFCG" {
        SortIsAscendingOf(logins, Elements(logins));
        AscendingOfLists(Elements(logins));
        logins := Sort(logins);
      }
      r := Ok(Braces(logins));
    }

    /** The session's user joins community `nome`. */
    method AdicionarMembro(usuario: Usuario, nome: string) returns (out: Outcome)
      requires Valid()
      modifies comunidades.Values
      ensures Valid()
      ensures (out, View()) == AddMember(old(View()), usuario.login, nome)
    {
      var comunidade := GetComunidade(nome);
      if comunidade == null {
        return Fail(CommunityNotFound);
      }
      ghost var antes := View();
      EnrollKeepsWellFormed(comunidade.Data(), usuario.login);
      out := comunidade.AdicionarMembro(usuario.login);
      ViewIs(antes[nome := comunidade.Data()]);
    }

    /** The names of the communities `login` belongs to, ascending; the user
        "jpsauve" has a hard-coded order of its own, left unspecified here. */
    method GetComunidadesDoUsuario(login: string) returns (r: Result<string>)
      requires Valid()
      ensures login !in userManager.usuarios ==> r == Err(UserNotFound)
      ensures login in userManager.usuarios && login != "jpsauve" ==>
        r == Ok(Braces(AscendingOf(CommunitiesOf(View(), login))))
      ensures login in userManager.usuarios ==>
        exists xs :: Lists(xs, CommunitiesOf(View(), login)) && r == Ok(Braces(xs))
    {
      var usuario := userManager.GetUsuario(login);
      if usuario == null {
        return Err(UserNotFound);
      }
      var nomes: seq<string> := [];
      var pendentes := comunidades.Keys;
      while pendentes != {}
        invariant pendentes <= comunidades.Keys
        invariant Distinct(nomes)
        invariant Elements(nomes) == CommunitiesOf(View(), login) - pendentes
        decreases pendentes
      {
        var n :| n in pendentes;
        if login in comunidades[n].GetMembros() {
          assert Elements(nomes + [n]) == Elements(nomes) + {n};
          nomes := nomes + [n];
        }
        pendentes := pendentes - {n};
      }
      if login != "jpsauve" {
        SortIsAscendingOf(nomes, CommunitiesOf(View(), login));
        AscendingOfLists(CommunitiesOf(View(), login));
        nomes := Sort(nomes);
      }
      r := Ok(Braces(nomes));
    }

    /** Appends the message to the queue of every member of community
        `nome`. The sender need not be a member. */
    method EnviarMensagemParaComunidade(remetente: Usuario, nome: string, mensagem: string) returns (out: Outcome)
      requires Valid() && userManager.Valid()
      modifies userManager.usuarios.Values
      ensures userManager.usuarios == old(userManager.usuarios)
      ensures View() == old(View())
      ensures (out, userManager.View()) == SendToCommunity(old(View()), old(userManager.View()), nome, mensagem)
    {
      var comunidade := GetComunidade(nome);
      if comunidade == null {
        return Fail(CommunityNotFound);
      }
      var membros := comunidade.GetMembros();
      Difundir(membros, mensagem);
      ViewKept();
      out := Pass;
    }

    /** The loop of the broadcast: each login of `membros`, in order, has
        the message appended to the account stored under it. */
    method Difundir(membros: seq<string>, mensagem: string)
      requires userManager.Valid()
      modifies userManager.usuarios.Values
      ensures userManager.usuarios == old(userManager.usuarios)
      ensures userManager.View() == Broadcast(old(userManager.View()), membros, mensagem)
    {
      ghost var us := userManager.View();
      var i := 0;
      while i < |membros|
        invariant i <= |membros|
        invariant userManager.usuarios == old(userManager.usuarios)
        invariant userManager.View() == Broadcast(us, membros[..i], mensagem)
      {
        BroadcastStep(us, membros, i, mensagem);
        Entregar(membros[i], mensagem);
        i := i + 1;
      }
      assert membros[..i] == membros;
    }

    /** One iteration of the broadcast: the account stored under `login`, if
        any, receives the message. */
    method Entregar(login: string, mensagem: string)
      requires userManager.Valid()
      modifies userManager.usuarios.Values
      ensures userManager.usuarios == old(userManager.usuarios)
      ensures userManager.View() == Deliver(old(userManager.View()), login, mensagem)
    {
      var membro := userManager.GetUsuario(login);
      if membro != null {
        membro.ReceberMensagem(mensagem);
        userManager.ViewAfterOne(login);
      }
    }

    /** Deletes every community owned by `usuario`. The source also removes
        the user from a copy of each other community's members, which changes
        nothing, so memberships elsewhere survive. */
    method RemoverComunidadesDoUsuario(usuario: Usuario)
      requires Valid()
      modifies this`comunidades
      ensures Valid()
      ensures View() == RemoveOwnedBy(old(View()), usuario.login)
    {
      ghost var antes := View();
      var paraRemover: seq<string> := [];
      var pendentes := comunidades.Keys;
      while pendentes != {}
        invariant pendentes <= comunidades.Keys
        invariant forall n :: n in paraRemover <==> n in comunidades && n !in pendentes && comunidades[n].dono == usuario.login
        decreases pendentes
      {
        var n :| n in pendentes;
        if comunidades[n].dono == usuario.login {
          paraRemover := paraRemover + [n];
        }
        pendentes := pendentes - {n};
      }
      var i := 0;
      while i < |paraRemover|
        invariant i <= |paraRemover|
        invariant comunidades.Keys == antes.Keys - Elements(paraRemover[..i])
        invariant forall n :: n in comunidades ==> comunidades[n] == old(comunidades)[n]
      {
        assert Elements(paraRemover[..i + 1]) == Elements(paraRemover[..i]) + {paraRemover[i]};
        comunidades := comunidades - {paraRemover[i]};
        i := i + 1;
      }
      assert paraRemover[..i] == paraRemover;
      ViewIs(RemoveOwnedBy(antes, usuario.login));
    }

    method Clear()
      modifies this`comunidades
      ensures Valid() && View() == map[]
    {
      comunidades := map[];
    }
  }

  // ---------------------------------------------------------------------
  // Properties of the community directory

  /** Because no login is listed twice, the sequential broadcast hands each
      member exactly one copy of the message and nobody else any. */
  lemma {:induction false} BroadcastOnce(us: Users, membros: seq<string>, mensagem: string)
    requires Distinct(membros)
    ensures forall l :: l in us ==>
      Broadcast(us, membros, mensagem)[l] == if l in membros then ReceiveMessage(us[l], mensagem) else us[l]
    decreases |membros|
  {
    if membros != [] {
      var k := |membros| - 1;
      var anteriores := membros[..k];
      assert Distinct(anteriores);
      BroadcastOnce(us, anteriores, mensagem);
      assert membros == anteriores + [membros[k]];
      assert membros[k] !in anteriores;
    }
  }

  /** A message to an unknown community fails and delivers nothing. A
      message to a known one appends the text, once, to the queue of each
      member that has an account, changes nothing else for them, and leaves
      every other account (the sender's included, if not a member) as it was. */
  lemma SendToCommunityEffect(cs: Communities, us: Users, nome: string, mensagem: string)
    requires AllWellFormed(cs)
    ensures var (out, us') := SendToCommunity(cs, us, nome, mensagem);
      && (out == Fail(CommunityNotFound) <==> nome !in cs)
      && (out.Fail? ==> us' == us)
      && us'.Keys == us.Keys
      && (nome in cs ==> forall l :: l in us && l in cs[nome].membros ==>
            us'[l] == us[l].(mensagensRecebidas := us[l].mensagensRecebidas + [mensagem]))
      && (nome in cs ==> forall l :: l in us && l !in cs[nome].membros ==> us'[l] == us[l])
  {
    if nome in cs {
      BroadcastOnce(us, cs[nome].membros, mensagem);
    }
  }

  /** Creating a community under a taken name fails and changes nothing;
      otherwise the community answers with the given owner and description,
      its only member is the owner, and every other community is kept. */
  lemma CreateCommunityEffect(cs: Communities, dono: string, nome: string, descricao: string)
    requires AllWellFormed(cs)
    ensures var (out, cs') := CreateCommunity(cs, dono, nome, descricao);
      && AllWellFormed(cs')
      && (out == Fail(CommunityExists) <==> nome in cs)
      && (out.Fail? ==> cs' == cs)
      && (out == Pass ==>
            && Owner(cs', nome) == Ok(dono)
            && Description(cs', nome) == Ok(descricao)
            && cs'[nome].membros == [dono]
            && cs'.Keys == cs.Keys + {nome}
            && (forall n :: n in cs ==> cs'[n] == cs[n]))
  {
  }

  /** Joining an unknown community fails with CommunityNotFound, a second
      join with AlreadyMember; an accepted join adds exactly that community
      to the user's communities and nobody else's. Every community stays
      well formed, so each owner remains a member. */
  lemma AddMemberEffect(cs: Communities, login: string, nome: string)
    requires AllWellFormed(cs)
    ensures var (out, cs') := AddMember(cs, login, nome);
      && AllWellFormed(cs')
      && cs'.Keys == cs.Keys
      && (nome !in cs ==> out == Fail(CommunityNotFound) && cs' == cs)
      && (nome in cs && login in cs[nome].membros ==> out == Fail(AlreadyMember) && cs' == cs)
      && (nome in cs && login !in cs[nome].membros ==> out == Pass)
      && (nome in cs ==> CommunitiesOf(cs', login) == CommunitiesOf(cs, login) + {nome})
      && (forall x :: x != login ==> CommunitiesOf(cs', x) == CommunitiesOf(cs, x))
  {
    if nome in cs {
      EnrollKeepsWellFormed(cs[nome], login);
      EnrollEffect(cs[nome], login);
      var cs' := AddMember(cs, login, nome).1;
      forall x | x != login ensures CommunitiesOf(cs', x) == CommunitiesOf(cs, x) {
        assert x in cs'[nome].membros <==> x in cs[nome].membros by {
          assert x in Elements(cs'[nome].membros) <==> x in Elements(cs[nome].membros);
        }
      }
    }
  }

  /** Deleting a user's communities removes exactly those the user owns and
      keeps the others intact: as written, the user is still listed as a
      member wherever someone else is the owner. */
  lemma RemoveOwnedByEffect(cs: Communities, login: string)
    requires AllWellFormed(cs)
    ensures var cs' := RemoveOwnedBy(cs, login);
      && AllWellFormed(cs')
      && (forall n :: n in cs' <==> n in cs && Owner(cs, n) != Ok(login))
      && (forall n :: n in cs' ==> cs'[n] == cs[n])
      && CommunitiesOf(cs', login) == CommunitiesOf(cs, login) - (set n | n in cs && cs[n].dono == login)
  {
  }

  /** A well-formed directory lists every owner among the members of the
      owner's community. */
  lemma OwnerIsMember(cs: Communities, nome: string)
    requires AllWellFormed(cs) && nome in cs
    ensures nome in CommunitiesOf(cs, cs[nome].dono)
  {
    assert cs[nome].membros[0] == cs[nome].dono;
  }
}
