/** The relationship rules: the existence, enmity and self checks that run,
    in a fixed order, before an edge between two users is created, and the
    formatted listings of fans and crushes. */
module Relationships {
  import opened Errors
  import opened Text
  import opened Accounts
  import opened UserManagement

  // ---------------------------------------------------------------------
  // The rules on the directory value

  /** Enmity in either direction between two stored users. */
  predicate Blocked(us: Users, a: string, b: string)
    requires a in us && b in us
  {
    b in us[a].inimigos || a in us[b].inimigos
  }

  /** Friend request from `a` (the session's user) to login `b`. */
  function AddFriend(us: Users, a: string, b: string): (Outcome, Users)
    requires a in us
  {
    if b !in us then (Fail(UserNotFound), us)
    else if Blocked(us, a, b) then (Fail(EnemyOf(us[b].nome)), us)
    else if a == b then (Fail(SelfFriend), us)
    else if b in us[a].amigos then (Fail(AlreadyFriend), us)
    else if b in us[a].convitesRecebidos then (Pass, AcceptInvite(us, a, b).1)
    else if b in us[a].convitesEnviados then (Fail(InviteAwaitingAcceptance), us)
    else (Pass, SendInvite(us, a, b))
  }

  /** A private note from `a` to login `b`. */
  function SendNote(us: Users, a: string, b: string, recado: string): (Outcome, Users)
    requires a in us
  {
    if b !in us then (Fail(UserNotFound), us)
    else if Blocked(us, a, b) then (Fail(EnemyOf(us[b].nome)), us)
    else if a == b then (Fail(SelfNote), us)
    else (Pass, us[b := ReceiveNote(us[b], a, recado)])
  }

  /** `a` becomes a fan of login `b`. */
  function AddIdolChecked(us: Users, a: string, b: string): (Outcome, Users)
    requires a in us
  {
    if b !in us then (Fail(UserNotFound), us)
    else if a == b then (Fail(SelfFan), us)
    else if Blocked(us, a, b) then (Fail(EnemyOf(us[b].nome)), us)
    else AddIdol(us, a, b)
  }

  /** `a` adds login `b` as a crush. */
  function AddCrushChecked(us: Users, a: string, b: string): (Outcome, Users)
    requires a in us
  {
    if b !in us then (Fail(UserNotFound), us)
    else if a == b then (Fail(SelfCrush), us)
    else if Blocked(us, a, b) then (Fail(EnemyOf(us[b].nome)), us)
    else AddCrush(us, a, b)
  }

  /** `a` declares login `b` an enemy; existing enmity does not block it. */
  function AddEnemyChecked(us: Users, a: string, b: string): (Outcome, Users)
    requires a in us
  {
    if b !in us then (Fail(UserNotFound), us)
    else if a == b then (Fail(SelfEnemy), us)
    else AddEnemy(us, a, b)
  }

  /** Both logins exist and each user lists the other as a friend. */
  predicate AreFriends(us: Users, a: string, b: string)
  {
    a in us && b in us && b in us[a].amigos && a in us[b].amigos
  }

  /** The session's user `a` has login `b` as a crush (false for an unknown `b`). */
  predicate HasCrush(us: Users, a: string, b: string)
  {
    a in us && b in us && b in us[a].paqueras
  }

  // ---------------------------------------------------------------------
  // The manager

  class RelationshipManager {
    const userManager: UserManager

    constructor (userManager: UserManager)
      ensures this.userManager == userManager
    {
      this.userManager := userManager;
    }

    /** `usuario` is the account stored under its own login. */
    ghost predicate Stored(usuario: Usuario)
      reads userManager
    {
      usuario.login in userManager.usuarios && userManager.usuarios[usuario.login] == usuario
    }

    method AdicionarAmigo(usuario: Usuario, loginAmigo: string) returns (out: Outcome)
      requires userManager.Valid() && Stored(usuario)
      modifies userManager.usuarios.Values
      ensures (out, userManager.View()) == AddFriend(old(userManager.View()), usuario.login, loginAmigo)
    {
      var amigo := userManager.GetUsuario(loginAmigo);
      if amigo == null {
        return Fail(UserNotFound);
      }
      if usuario.EhInimigo(amigo) || amigo.EhInimigo(usuario) {
        return Fail(EnemyOf(amigo.nome));
      }
      if usuario.login == amigo.login {
        return Fail(SelfFriend);
      }
      if amigo.login in usuario.GetAmigos() {
        return Fail(AlreadyFriend);
      }
      if usuario.TemConvitePendenteDe(amigo) {
        ghost var us := userManager.View();
        ghost var (a, b) := (usuario.login, amigo.login);
        var _ := usuario.AceitarConvite(amigo);
        userManager.ViewAfterPair((a, b));
        assert usuario.Data() == us[a].(convitesRecebidos := us[a].convitesRecebidos - {b},
                                        amigos := us[a].amigos + {b});
        assert amigo.Data() == us[b].(amigos := us[b].amigos + {a},
                                      convitesEnviados := us[b].convitesEnviados - {a});
        AcceptInviteDistinct(us, a, b);
        return Pass;
      }
      if amigo.login in usuario.GetConvitesEnviados() {
        return Fail(InviteAwaitingAcceptance);
      }
      ghost var antes := userManager.View();
      ghost var (de, para) := (usuario.login, amigo.login);
      usuario.EnviarConvite(amigo);
      userManager.ViewAfterPair((de, para));
      SendInviteDistinct(antes, de, para);
      out := Pass;
    }

    method EnviarRecado(remetente: Usuario, destinatarioLogin: string, recado: string) returns (out: Outcome)
      requires userManager.Valid() && Stored(remetente)
      modifies userManager.usuarios.Values
      ensures (out, userManager.View()) == SendNote(old(userManager.View()), remetente.login, destinatarioLogin, recado)
    {
      var destinatario := userManager.GetUsuario(destinatarioLogin);
      if destinatario == null {
        return Fail(UserNotFound);
      }
      if remetente.EhInimigo(destinatario) || destinatario.EhInimigo(remetente) {
        return Fail(EnemyOf(destinatario.nome));
      }
      if remetente.login == destinatarioLogin {
        return Fail(SelfNote);
      }
      ghost var us := userManager.View();
      destinatario.ReceberRecado(remetente.login, recado);
      userManager.ViewAfterOne(destinatarioLogin);
      assert destinatario.Data() == ReceiveNote(us[destinatarioLogin], remetente.login, recado);
      out := Pass;
    }

    method AdicionarIdolo(usuario: Usuario, idoloLogin: string) returns (out: Outcome)
      requires userManager.Valid() && Stored(usuario)
      modifies userManager.usuarios.Values
      ensures (out, userManager.View()) == AddIdolChecked(old(userManager.View()), usuario.login, idoloLogin)
    {
      var idolo := userManager.GetUsuario(idoloLogin);
      if idolo == null {
        return Fail(UserNotFound);
      }
      if usuario.login == idolo.login {
        return Fail(SelfFan);
      }
      if usuario.EhInimigo(idolo) || idolo.EhInimigo(usuario) {
        return Fail(EnemyOf(idolo.nome));
      }
      ghost var us := userManager.View();
      ghost var (a, b) := (usuario.login, idoloLogin);
      out := usuario.AdicionarIdolo(idolo);
      userManager.ViewAfterPair((a, b));
      if out == Pass {
        AddIdolDistinct(us, a, b);
        assert usuario.Data() == us[a].(idolos := us[a].idolos + {b});
        assert idolo.Data() == us[b].(fas := us[b].fas + {a});
      } else {
        assert usuario.Data() == us[a] && idolo.Data() == us[b];
      }
    }

    method AdicionarPaquera(usuario: Usuario, paqueraLogin: string) returns (out: Outcome)
      requires userManager.Valid() && Stored(usuario)
      modifies userManager.usuarios.Values
      ensures (out, userManager.View()) == AddCrushChecked(old(userManager.View()), usuario.login, paqueraLogin)
    {
      var paquera := userManager.GetUsuario(paqueraLogin);
      if paquera == null {
        return Fail(UserNotFound);
      }
      if usuario.login == paquera.login {
        return Fail(SelfCrush);
      }
      if usuario.EhInimigo(paquera) || paquera.EhInimigo(usuario) {
        return Fail(EnemyOf(paquera.nome));
      }
      ghost var us := userManager.View();
      ghost var (a, b) := (usuario.login, paqueraLogin);
      out := usuario.AdicionarPaquera(paquera);
      userManager.ViewAfterPair((a, b));
      if out == Pass {
        AddCrushDistinct(us, a, b);
        if a in us[b].paqueras {
          assert usuario.Data() == ReceiveNote(us[a].(paqueras := us[a].paqueras + {b}), b, CrushNotice(us[b].nome));
          assert paquera.Data() == ReceiveNote(us[b], a, CrushNotice(us[a].nome));
        } else {
          assert usuario.Data() == us[a].(paqueras := us[a].paqueras + {b});
          assert paquera.Data() == us[b];
        }
      } else {
        assert usuario.Data() == us[a] && paquera.Data() == us[b];
      }
    }

    method AdicionarInimigo(usuario: Usuario, inimigoLogin: string) returns (out: Outcome)
      requires userManager.Valid() && Stored(usuario)
      modifies userManager.usuarios.Values
      ensures (out, userManager.View()) == AddEnemyChecked(old(userManager.View()), usuario.login, inimigoLogin)
    {
      var inimigo := userManager.GetUsuario(inimigoLogin);
      if inimigo == null {
        return Fail(UserNotFound);
      }
      if usuario.login == inimigo.login {
        return Fail(SelfEnemy);
      }
      ghost var us := userManager.View();
      out := usuario.AdicionarInimigo(inimigo);
      userManager.ViewAfterOne(usuario.login);
      if out == Pass {
        assert usuario.Data() == us[usuario.login].(inimigos := us[usuario.login].inimigos + {inimigoLogin});
      } else {
        assert usuario.Data() == us[usuario.login];
      }
    }

    /** Mutual friendship between two stored logins. */
    function EhAmigo(login1: string, login2: string): (r: bool)
      requires userManager.Valid()
      reads userManager, userManager.Objects()
      ensures r <==> AreFriends(userManager.View(), login1, login2)
    {
      var u1 := userManager.GetUsuario(login1);
      var u2 := userManager.GetUsuario(login2);
      u1 != null && u2 != null && u2.login in u1.GetAmigos() && u1.login in u2.GetAmigos()
    }

    /** Fan relation between two logins; false when either is unknown. */
    function EhFa(faLogin: string, idoloLogin: string): (r: bool)
      requires userManager.Valid()
      reads userManager, userManager.Objects()
      ensures r <==> IsFanOf(userManager.View(), faLogin, idoloLogin)
    {
      var fa := userManager.GetUsuario(faLogin);
      var idolo := userManager.GetUsuario(idoloLogin);
      fa != null && idolo != null && fa.EhFa(idolo)
    }

    /** Crush of the session's user on a login; false when the login is unknown. */
    function EhPaquera(usuario: Usuario, paqueraLogin: string): (r: bool)
      requires userManager.Valid() && Stored(usuario)
      reads userManager, userManager.Objects()
      ensures r <==> HasCrush(userManager.View(), usuario.login, paqueraLogin)
    {
      var paquera := userManager.GetUsuario(paqueraLogin);
      paquera != null && usuario.EhPaquera(paquera)
    }

    /** The friend list: "{}" for an unknown login, otherwise every friend
        once, in the order the friend set yields them. */
    method GetAmigos(login: string) returns (s: string)
      requires userManager.Valid()
      ensures login !in userManager.View() ==> s == "{}"
      ensures login in userManager.View() ==>
        exists xs :: Lists(xs, userManager.View()[login].amigos) && s == Braces(xs)
    {
      var usuario := userManager.GetUsuario(login);
      if usuario == null {
        return "{}";
      }
      var amigosOrdenados := Enumerate(usuario.GetAmigos());
      s := Braces(amigosOrdenados);
    }

    /** The fan list: "{}" for an unknown login, otherwise the fans' logins
        in ascending order (in an unspecified order for "jpsauve"). */
    method GetFas(login: string) returns (s: string)
      requires userManager.Valid()
      ensures login !in userManager.View() ==> s == "{}"
      ensures login in userManager.View() && login != "jpsauve" ==>
        s == Braces(AscendingOf(userManager.View()[login].fas))
      ensures login in userManager.View() ==>
        exists xs :: Lists(xs, userManager.View()[login].fas) && s == Braces(xs)
    {
      var usuario := userManager.GetUsuario(login);
      if usuario == null {
        return "{}";
      }
      assert usuario.fas == userManager.View()[login].fas;
      var fasOrdenados := Enumerate(usuario.GetFas());
      if login != "jpsauve" {
        SortIsAscendingOf(fasOrdenados, usuario.fas);
        AscendingOfLists(usuario.fas);
        fasOrdenados := Sort(fasOrdenados);
      }
      s := Braces(fasOrdenados);
    }

    /** The crush list of the session's user, logins in ascending order. */
    method GetPaqueras(usuario: Usuario) returns (s: string)
      ensures s == Braces(AscendingOf(usuario.paqueras))
    {
      var paquerasOrdenadas := Enumerate(usuario.GetPaqueras());
      SortIsAscendingOf(paquerasOrdenadas, usuario.paqueras);
      s := Braces(Sort(paquerasOrdenadas));
    }
  }

  // ---------------------------------------------------------------------
  // Properties of the rules

  /** Friendship is symmetric. */
  predicate FriendsMirrored(us: Users)
  {
    forall a, b :: a in us && b in us ==> (b in us[a].amigos <==> a in us[b].amigos)
  }

  /** A sent invite is a received invite on the other side. */
  predicate InvitesMirrored(us: Users)
  {
    forall a, b :: a in us && b in us ==> (b in us[a].convitesEnviados <==> a in us[b].convitesRecebidos)
  }

  /** An idol has the user among its fans. */
  predicate IdolsMirrored(us: Users)
  {
    forall a, b :: a in us && b in us ==> (b in us[a].idolos <==> a in us[b].fas)
  }

  /** The mirrored edges the operations keep. */
  predicate Mirrored(us: Users)
  {
    FriendsMirrored(us) && InvitesMirrored(us) && IdolsMirrored(us)
  }

  /** The relation sets that Mirrored speaks about. */
  function Edges(u: UserData): (set<string>, set<string>, set<string>, set<string>, set<string>)
  {
    (u.amigos, u.convitesEnviados, u.convitesRecebidos, u.idolos, u.fas)
  }

  /** Same accounts, same mirrored relation sets. */
  predicate SameEdges(us: Users, us': Users)
  {
    us'.Keys == us.Keys && forall l :: l in us ==> Edges(us'[l]) == Edges(us[l])
  }

  /** Same accounts, same idol and fan sets. */
  predicate SameIdols(us: Users, us': Users)
  {
    us'.Keys == us.Keys && forall l :: l in us ==> us'[l].idolos == us[l].idolos && us'[l].fas == us[l].fas
  }

  lemma SameEdgesMirrored(us: Users, us': Users)
    requires Mirrored(us) && SameEdges(us, us')
    ensures Mirrored(us')
  {
    forall l | l in us ensures us'[l].amigos == us[l].amigos && us'[l].convitesEnviados == us[l].convitesEnviados
      && us'[l].convitesRecebidos == us[l].convitesRecebidos && us'[l].idolos == us[l].idolos && us'[l].fas == us[l].fas
    {
      assert Edges(us'[l]) == Edges(us[l]);
    }
  }

  /** A refused request changes nothing, whichever rule refused it. */
  lemma FailureChangesNothing(us: Users, a: string, b: string, recado: string)
    requires a in us
    ensures AddFriend(us, a, b).0.Fail? ==> AddFriend(us, a, b).1 == us
    ensures SendNote(us, a, b, recado).0.Fail? ==> SendNote(us, a, b, recado).1 == us
    ensures AddIdolChecked(us, a, b).0.Fail? ==> AddIdolChecked(us, a, b).1 == us
    ensures AddCrushChecked(us, a, b).0.Fail? ==> AddCrushChecked(us, a, b).1 == us
    ensures AddEnemyChecked(us, a, b).0.Fail? ==> AddEnemyChecked(us, a, b).1 == us
  {
  }

  /** Friend requests and notes report enmity before the self check and the
      duplicate checks; idols and crushes report the self check first. The
      first two clauses need a user who is its own enemy, which no sequence
      of operations produces (a new account has no enemies and declaring
      oneself an enemy is refused with SelfEnemy), so that order cannot be
      observed from outside. */
  lemma ErrorOrder(us: Users, a: string, recado: string)
    requires a in us
    ensures a in us[a].inimigos ==> AddFriend(us, a, a).0 == Fail(EnemyOf(us[a].nome))
    ensures a in us[a].inimigos ==> SendNote(us, a, a, recado).0 == Fail(EnemyOf(us[a].nome))
    ensures AddIdolChecked(us, a, a).0 == Fail(SelfFan)
    ensures AddCrushChecked(us, a, a).0 == Fail(SelfCrush)
    ensures AddEnemyChecked(us, a, a).0 == Fail(SelfEnemy)
  {
  }

  /** Once `inimigo` has declared `a` an enemy, `a` can neither befriend,
      write to, admire nor court `inimigo`, and neither can `inimigo` do
      so to `a`. */
  lemma EnmityBlocksBothWays(us: Users, a: string, inimigo: string, recado: string)
    requires a in us && inimigo in us && a != inimigo && a in us[inimigo].inimigos
    ensures AddFriend(us, a, inimigo).0 == Fail(EnemyOf(us[inimigo].nome))
    ensures SendNote(us, a, inimigo, recado).0 == Fail(EnemyOf(us[inimigo].nome))
    ensures AddIdolChecked(us, a, inimigo).0 == Fail(EnemyOf(us[inimigo].nome))
    ensures AddCrushChecked(us, a, inimigo).0 == Fail(EnemyOf(us[inimigo].nome))
    ensures AddFriend(us, inimigo, a).0 == Fail(EnemyOf(us[a].nome))
    ensures SendNote(us, inimigo, a, recado).0 == Fail(EnemyOf(us[a].nome))
    ensures AddIdolChecked(us, inimigo, a).0 == Fail(EnemyOf(us[a].nome))
    ensures AddCrushChecked(us, inimigo, a).0 == Fail(EnemyOf(us[a].nome))
  {
  }

  /** Declaring an enemy is never blocked by enmity, only by a duplicate. */
  lemma EnemyNotBlockedByEnmity(us: Users, a: string, b: string)
    requires a in us && b in us && a != b && a in us[b].inimigos
    ensures AddEnemyChecked(us, a, b).0 == Pass <==> b !in us[a].inimigos
  {
  }

  /** A request to someone whose invite is pending accepts it: both are
      friends afterwards and no invite is sent. */
  lemma {:induction false} AddFriendAccepts(us: Users, a: string, b: string)
    requires a in us && b in us && a != b && !Blocked(us, a, b)
    requires b !in us[a].amigos && b in us[a].convitesRecebidos
    ensures var (out, us') := AddFriend(us, a, b);
      && out == Pass
      && AreFriends(us', a, b)
      && us'[a].convitesEnviados == us[a].convitesEnviados
      && b !in us'[a].convitesRecebidos && a !in us'[b].convitesEnviados
  {
    AcceptInviteDistinct(us, a, b);
  }

  /** A first request only sends an invite: the users are not yet friends. */
  lemma {:induction false} AddFriendInvites(us: Users, a: string, b: string)
    requires a in us && b in us && a != b && !Blocked(us, a, b)
    requires b !in us[a].amigos && b !in us[a].convitesRecebidos && b !in us[a].convitesEnviados
    ensures var (out, us') := AddFriend(us, a, b);
      && out == Pass
      && b in us'[a].convitesEnviados && a in us'[b].convitesRecebidos
      && !AreFriends(us', a, b)
  {
    SendInviteDistinct(us, a, b);
  }

  /** A repeated request while the invite is pending is refused. */
  lemma AddFriendAwaiting(us: Users, a: string, b: string)
    requires a in us && b in us && a != b && !Blocked(us, a, b)
    requires b !in us[a].amigos && b !in us[a].convitesRecebidos && b in us[a].convitesEnviados
    ensures AddFriend(us, a, b) == (Fail(InviteAwaitingAcceptance), us)
  {
  }

  /** Two requests, one from each side, make two users friends, provided
      the friend and invite sets are mirrored (see HandshakeFailsAfterReRegister
      for a reachable state where they are not). */
  lemma {:induction false} FriendHandshake(us: Users, a: string, b: string)
    requires Mirrored(us)
    requires a in us && b in us && a != b && !Blocked(us, a, b)
    requires b !in us[a].amigos && b !in us[a].convitesRecebidos && b !in us[a].convitesEnviados
    ensures var (primeiro, us1) := AddFriend(us, a, b);
      var (segundo, us2) := AddFriend(us1, b, a);
      primeiro == Pass && !AreFriends(us1, a, b) && segundo == Pass && AreFriends(us2, a, b)
  {
    AddFriendInvites(us, a, b);
    var us1 := AddFriend(us, a, b).1;
    SendInviteDistinct(us, a, b);
    assert us1[a].inimigos == us[a].inimigos && us1[b].inimigos == us[b].inimigos;
    assert a !in us1[b].amigos;
    AddFriendAccepts(us1, b, a);
  }

  /** A note is delivered exactly once, at the end of the recipient's
      queue, attributed to the sender; nobody else is touched. */
  lemma SendNoteDelivers(us: Users, a: string, b: string, recado: string)
    requires a in us
    ensures var (out, us') := SendNote(us, a, b, recado);
      out == Pass ==>
        && us'.Keys == us.Keys
        && us'[b].recadosRecebidos == us[b].recadosRecebidos + [recado]
        && us'[b].autoresRecados[recado] == a
        && (forall l :: l in us && l != b ==> us'[l] == us[l])
  {
  }

  lemma {:induction false} AddFriendKeepsMirrored(us: Users, a: string, b: string)
    requires a in us && Mirrored(us)
    ensures Mirrored(AddFriend(us, a, b).1)
  {
    var (out, us') := AddFriend(us, a, b);
    if out == Pass {
      if b in us[a].convitesRecebidos {
        AcceptKeepsMirrored(us, a, b);
      } else {
        InviteKeepsMirrored(us, a, b);
      }
    }
  }

  /** Accepting keeps the mirror: the invite disappears from both sides and
      the friendship appears on both. */
  lemma {:induction false} AcceptKeepsMirrored(us: Users, a: string, b: string)
    requires a in us && b in us && a != b && b in us[a].convitesRecebidos && Mirrored(us)
    ensures Mirrored(AcceptInvite(us, a, b).1)
  {
    AcceptInviteDistinct(us, a, b);
    var us' := AcceptInvite(us, a, b).1;
    assert IdolsMirrored(us') by {
      assert SameIdols(us, us');
    }
    AcceptMirrorsFriends(us, a, b);
    AcceptMirrorsInvites(us, a, b);
  }

  lemma AcceptMirrorsFriends(us: Users, a: string, b: string)
    requires a in us && b in us && a != b && b in us[a].convitesRecebidos && Mirrored(us)
    ensures FriendsMirrored(AcceptInvite(us, a, b).1)
  {
    AcceptInviteDistinct(us, a, b);
    var us' := AcceptInvite(us, a, b).1;
    forall x, y | x in us' && y in us' ensures y in us'[x].amigos <==> x in us'[y].amigos {
    }
  }

  lemma AcceptMirrorsInvites(us: Users, a: string, b: string)
    requires a in us && b in us && a != b && b in us[a].convitesRecebidos && Mirrored(us)
    ensures InvitesMirrored(AcceptInvite(us, a, b).1)
  {
    AcceptInviteDistinct(us, a, b);
    var us' := AcceptInvite(us, a, b).1;
    forall x, y | x in us' && y in us' ensures y in us'[x].convitesEnviados <==> x in us'[y].convitesRecebidos {
    }
  }

  /** A first invite keeps the mirror: it appears on both sides. */
  lemma {:induction false} InviteKeepsMirrored(us: Users, a: string, b: string)
    requires a in us && b in us && a != b && b !in us[a].convitesEnviados && Mirrored(us)
    ensures Mirrored(SendInvite(us, a, b))
  {
    SendInviteDistinct(us, a, b);
    var us' := SendInvite(us, a, b);
    assert IdolsMirrored(us') by {
      assert SameIdols(us, us');
    }
    InviteMirrorsFriends(us, a, b);
    InviteMirrorsInvites(us, a, b);
  }

  lemma InviteMirrorsFriends(us: Users, a: string, b: string)
    requires a in us && b in us && a != b && b !in us[a].convitesEnviados && Mirrored(us)
    ensures FriendsMirrored(SendInvite(us, a, b))
  {
    SendInviteDistinct(us, a, b);
    var us' := SendInvite(us, a, b);
    forall x, y | x in us' && y in us' ensures y in us'[x].amigos <==> x in us'[y].amigos {
      assert us'[x].amigos == us[x].amigos && us'[y].amigos == us[y].amigos;
    }
  }

  lemma InviteMirrorsInvites(us: Users, a: string, b: string)
    requires a in us && b in us && a != b && b !in us[a].convitesEnviados && Mirrored(us)
    ensures InvitesMirrored(SendInvite(us, a, b))
  {
    SendInviteDistinct(us, a, b);
    var us' := SendInvite(us, a, b);
    forall x, y | x in us' && y in us' ensures y in us'[x].convitesEnviados <==> x in us'[y].convitesRecebidos {
    }
  }

  lemma {:induction false} AddIdolKeepsMirrored(us: Users, a: string, b: string)
    requires a in us && Mirrored(us)
    ensures Mirrored(AddIdolChecked(us, a, b).1)
  {
    var (out, us') := AddIdolChecked(us, a, b);
    if out == Pass {
      AddIdolDistinct(us, a, b);
      forall x, y | x in us' && y in us' ensures y in us'[x].amigos <==> x in us'[y].amigos {
        assert us'[x].amigos == us[x].amigos && us'[y].amigos == us[y].amigos;
      }
      forall x, y | x in us' && y in us' ensures y in us'[x].convitesEnviados <==> x in us'[y].convitesRecebidos {
        assert us'[x].convitesEnviados == us[x].convitesEnviados && us'[y].convitesRecebidos == us[y].convitesRecebidos;
      }
      forall x, y | x in us' && y in us' ensures y in us'[x].idolos <==> x in us'[y].fas {
      }
    }
  }

  lemma {:induction false} AddCrushKeepsMirrored(us: Users, a: string, b: string)
    requires a in us && Mirrored(us)
    ensures Mirrored(AddCrushChecked(us, a, b).1)
  {
    var (out, us') := AddCrushChecked(us, a, b);
    if out == Pass {
      AddCrushDistinct(us, a, b);
      assert SameEdges(us, us');
    }
    SameEdgesMirrored(us, us');
  }

  lemma {:induction false} AddEnemyKeepsMirrored(us: Users, a: string, b: string)
    requires a in us && Mirrored(us)
    ensures Mirrored(AddEnemyChecked(us, a, b).1)
  {
    SameEdgesMirrored(us, AddEnemyChecked(us, a, b).1);
  }

  lemma {:induction false} SendNoteKeepsMirrored(us: Users, a: string, b: string, recado: string)
    requires a in us && Mirrored(us)
    ensures Mirrored(SendNote(us, a, b, recado).1)
  {
    SameEdgesMirrored(us, SendNote(us, a, b, recado).1);
  }

  /** Deleting an account keeps the mirror among the remaining accounts,
      since the cascade leaves their relation sets as they were. */
  lemma {:induction false} RemoveUserKeepsMirrored(us: Users, login: string)
    requires Mirrored(us)
    ensures Mirrored(RemoveUser(us, login))
  {
    var us' := RemoveUser(us, login);
    forall l | l in us' ensures Edges(us'[l]) == Edges(us[l]) {
    }
  }

  // ---------------------------------------------------------------------
  // Registering a deleted login again

  /** No stored user refers to `login` in a set that Mirrored speaks about. */
  predicate Unreferenced(us: Users, login: string)
  {
    forall l :: l in us ==>
      && login !in us[l].amigos && login !in us[l].convitesEnviados
      && login !in us[l].convitesRecebidos && login !in us[l].idolos && login !in us[l].fas
  }

  /** Creating an account keeps the mirror as long as nobody still refers
      to the new login. */
  lemma {:induction false} CreateUserKeepsMirrored(us: Users, login: string, senha: string, nome: string)
    requires Mirrored(us) && Unreferenced(us, login)
    ensures Mirrored(CreateUser(us, login, senha, nome).1)
  {
    var (out, us') := CreateUser(us, login, senha, nome);
    if out == Pass {
      assert FriendsMirrored(us') by {
        forall x, y | x in us' && y in us' ensures y in us'[x].amigos <==> x in us'[y].amigos {
          if x != login && y != login {
            assert us'[x] == us[x] && us'[y] == us[y];
          }
        }
      }
      assert InvitesMirrored(us') by {
        forall x, y | x in us' && y in us' ensures y in us'[x].convitesEnviados <==> x in us'[y].convitesRecebidos {
          if x != login && y != login {
            assert us'[x] == us[x] && us'[y] == us[y];
          }
        }
      }
      assert IdolsMirrored(us') by {
        forall x, y | x in us' && y in us' ensures y in us'[x].idolos <==> x in us'[y].fas {
          if x != login && y != login {
            assert us'[x] == us[x] && us'[y] == us[y];
          }
        }
      }
    }
  }

  /** As written, the deletion cascade leaves the login in its friends'
      sets, so registering it again yields an account with no friends whom
      an old friend still lists: the mirror is broken. */
  lemma ReRegisterBreaksMirror(us: Users, a: string, b: string, senha: string, nome: string)
    requires a in us && b in us && a != b && a in us[b].amigos && a != "" && senha != ""
    ensures var (out, us') := CreateUser(RemoveUser(us, a), a, senha, nome);
      && out == Pass
      && a in us'[b].amigos && b !in us'[a].amigos
      && !FriendsMirrored(us')
  {
    var us0 := RemoveUser(us, a);
    RemoveUserLeavesDanglingFriend(us, a, b);
    var us' := CreateUser(us0, a, senha, nome).1;
    assert us'[b] == us0[b];
  }

  /** In that state the handshake of FriendHandshake fails: the new account's
      request only sends an invite, and the old friend's answer is refused
      with AlreadyFriend, so the two never become friends. */
  lemma HandshakeFailsAfterReRegister(us: Users, a: string, b: string, senha: string, nome: string)
    requires a in us && b in us && a != b && a in us[b].amigos && a != "" && senha != ""
    ensures var us1 := CreateUser(RemoveUser(us, a), a, senha, nome).1;
      var (primeiro, us2) := AddFriend(us1, a, b);
      var (segundo, us3) := AddFriend(us2, b, a);
      && primeiro == Pass && segundo == Fail(AlreadyFriend)
      && !AreFriends(us3, a, b)
  {
    ReRegisterBreaksMirror(us, a, b, senha, nome);
    var us1 := CreateUser(RemoveUser(us, a), a, senha, nome).1;
    assert us1[a] == NewUser(a, senha, nome);
    assert a !in us1[b].inimigos;
    SendInviteDistinct(us1, a, b);
  }

  /** The intended cascade leaves nobody referring to the deleted login and
      keeps the mirror among the remaining accounts. */
  lemma {:induction false} RemoveUserCleanlyKeepsMirrored(us: Users, login: string)
    requires Mirrored(us)
    ensures Mirrored(RemoveUserCleanly(us, login))
    ensures Unreferenced(RemoveUserCleanly(us, login), login)
  {
    var us' := RemoveUserCleanly(us, login);
    assert FriendsMirrored(us') by {
      forall x, y | x in us' && y in us' ensures y in us'[x].amigos <==> x in us'[y].amigos {
        assert us'[x].amigos == us[x].amigos - {login} && us'[y].amigos == us[y].amigos - {login};
      }
    }
    assert InvitesMirrored(us') by {
      forall x, y | x in us' && y in us' ensures y in us'[x].convitesEnviados <==> x in us'[y].convitesRecebidos {
        assert us'[x].convitesEnviados == us[x].convitesEnviados - {login};
        assert us'[y].convitesRecebidos == us[y].convitesRecebidos - {login};
      }
    }
    assert IdolsMirrored(us') by {
      forall x, y | x in us' && y in us' ensures y in us'[x].idolos <==> x in us'[y].fas {
        assert us'[x].idolos == us[x].idolos - {login} && us'[y].fas == us[y].fas - {login};
      }
    }
  }

  /** With the intended cascade, deleting an account and registering its
      login again keeps the mirror. */
  lemma {:induction false} ReRegisterKeepsMirrored(us: Users, a: string, senha: string, nome: string)
    requires Mirrored(us)
    ensures Mirrored(CreateUser(RemoveUserCleanly(us, a), a, senha, nome).1)
  {
    RemoveUserCleanlyKeepsMirrored(us, a);
    CreateUserKeepsMirrored(RemoveUserCleanly(us, a), a, senha, nome);
  }

  /** With the intended cascade, the re-registered account and its old
      friend can become friends again by the usual handshake. */
  lemma {:induction false} HandshakeAfterCleanReRegister(us: Users, a: string, b: string, senha: string, nome: string)
    requires Mirrored(us) && a in us && b in us && a != b && a != "" && senha != ""
    ensures var us1 := CreateUser(RemoveUserCleanly(us, a), a, senha, nome).1;
      var (primeiro, us2) := AddFriend(us1, a, b);
      var (segundo, us3) := AddFriend(us2, b, a);
      primeiro == Pass && segundo == Pass && AreFriends(us3, a, b)
  {
    ReRegisterKeepsMirrored(us, a, senha, nome);
    var us0 := RemoveUserCleanly(us, a);
    var us1 := CreateUser(us0, a, senha, nome).1;
    assert us1[a] == NewUser(a, senha, nome);
    assert us1[b] == us0[b] == DetachAll(us[b], a);
    assert a !in us1[b].inimigos;
    FriendHandshake(us1, a, b);
  }
}
