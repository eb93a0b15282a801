/** The façade: one object holding the user, session, community and
    relationship managers over a shared user directory. It resolves session
    ids, runs the account-deletion cascade in its fixed order, resets the
    system, answers profile attributes and reads the two message queues. */
module Jackut {
  import opened Errors
  import opened Accounts
  import opened Profiles
  import opened UserManagement
  import opened Relationships
  import opened CommunityManagement
  import opened SessionManagement

  /** The whole system as a value. */
  datatype SystemState = SystemState(usuarios: Users, comunidades: Communities, sessoes: SessionTable)

  /** No users, no communities, no sessions, and the counter back at 1. */
  function Empty(): SystemState
  {
    SystemState(map[], map[], SessionTable(map[], 1))
  }

  /** The login a session id stands for in this state. */
  function SessionLogin(s: SystemState, idSessao: string): (r: Result<string>)
    ensures r.Ok? ==> r.value in s.usuarios
  {
    Resolve(s.sessoes.sessoes, s.usuarios.Keys, idSessao)
  }

  /** Deleting the session's account: its owned communities go first, then
      its sessions, then the account itself with the cascade over the other
      users. */
  function RemoveAccount(s: SystemState, idSessao: string): (Outcome, SystemState)
  {
    match SessionLogin(s, idSessao)
    case Err(e) => (Fail(e), s)
    case Ok(login) =>
      (Pass, SystemState(RemoveUser(s.usuarios, login),
                         RemoveOwnedBy(s.comunidades, login),
                         s.sessoes.(sessoes := DropSessionsOf(s.sessoes.sessoes, login))))
  }

  /** An attribute of a user: "nome" always answers the display name, any
      other key the profile's value. */
  function UserAttribute(us: Users, login: string, atributo: string): Result<string>
  {
    if login !in us then Err(UserNotFound)
    else if atributo == "nome" then Ok(us[login].nome)
    else if atributo in us[login].atributos then Ok(us[login].atributos[atributo])
    else Err(AttributeNotSet)
  }

  /** Profile edit by the session's user; the session is resolved before
      the key is checked. */
  function EditProfile(s: SystemState, idSessao: string, atributo: string, valor: string): (Outcome, SystemState)
  {
    match SessionLogin(s, idSessao)
    case Err(e) => (Fail(e), s)
    case Ok(login) =>
      if atributo == "" then (Fail(AttributeNotSet), s)
      else
        var u := s.usuarios[login];
        (Pass, s.(usuarios := s.usuarios[login := u.(atributos := u.atributos[atributo := valor])]))
  }

  /** The session's user reads the oldest note; an empty queue is an error. */
  function ReadNoteOf(s: SystemState, idSessao: string): (Result<string>, SystemState)
  {
    match SessionLogin(s, idSessao)
    case Err(e) => (Err(e), s)
    case Ok(login) =>
      var (recado, u) := ReadNote(s.usuarios[login]);
      if recado.None? then (Err(NoNotes), s)
      else (Ok(recado.value), s.(usuarios := s.usuarios[login := u]))
  }

  /** The session's user reads the oldest community message; an empty queue
      is an error. */
  function ReadMessageOf(s: SystemState, idSessao: string): (Result<string>, SystemState)
  {
    match SessionLogin(s, idSessao)
    case Err(e) => (Err(e), s)
    case Ok(login) =>
      var (mensagem, u) := ReadMessage(s.usuarios[login]);
      if mensagem.None? then (Err(NoMessages), s)
      else (Ok(mensagem.value), s.(usuarios := s.usuarios[login := u]))
  }

  /** The deletion of a resolved session's account, component by component. */
  lemma RemoveAccountResolved(s: SystemState, idSessao: string, login: string)
    requires Resolve(s.sessoes.sessoes, s.usuarios.Keys, idSessao) == Ok(login)
    ensures RemoveAccount(s, idSessao) ==
      (Pass, SystemState(RemoveUser(s.usuarios, login),
                         RemoveOwnedBy(s.comunidades, login),
                         s.sessoes.(sessoes := DropSessionsOf(s.sessoes.sessoes, login))))
  {
  }

  /** Reading a note through a resolved session. */
  lemma ReadNoteOfResolved(s: SystemState, idSessao: string, login: string)
    requires SessionLogin(s, idSessao) == Ok(login)
    ensures var (recado, u) := ReadNote(s.usuarios[login]);
      ReadNoteOf(s, idSessao) ==
        if recado.None? then (Err(NoNotes), s) else (Ok(recado.value), s.(usuarios := s.usuarios[login := u]))
  {
  }

  class Facade {
    const userManager: UserManager
    const sessionManager: SessionManager
    const communityManager: CommunityManager
    const relationshipManager: RelationshipManager

    /** Every manager works on the one shared user directory. */
    ghost predicate Valid()
      reads this, userManager, sessionManager, communityManager, communityManager.comunidades.Values
    {
      && sessionManager.userManager == userManager
      && communityManager.userManager == userManager
      && relationshipManager.userManager == userManager
      && userManager.Valid() && sessionManager.Valid() && communityManager.Valid()
    }

    ghost function State(): SystemState
      reads this, userManager, userManager.Objects(), sessionManager, communityManager, communityManager.comunidades.Values
    {
      SystemState(userManager.View(), communityManager.View(), sessionManager.Table())
    }

    /** The system's value, read off manager by manager. */
    lemma StateIs(usuarios: Users, comunidades: Communities, sessoes: SessionTable)
      requires userManager.View() == usuarios
      requires communityManager.View() == comunidades
      requires sessionManager.Table() == sessoes
      ensures State() == SystemState(usuarios, comunidades, sessoes)
    {
    }

    constructor ()
      ensures Valid() && State() == Empty()
    {
      var usuarios := new UserManager();
      userManager := usuarios;
      sessionManager := new SessionManager(usuarios);
      communityManager := new CommunityManager(usuarios);
      relationshipManager := new RelationshipManager(usuarios);
      new;
      usuarios.ViewIs(map[]);
    }

    method ZerarSistema()
      requires Valid()
      modifies userManager, sessionManager`sessoes, sessionManager`proximoIdSessao, communityManager`comunidades
      ensures Valid() && State() == Empty()
    {
      userManager.Clear();
      sessionManager.Clear();
      communityManager.Clear();
    }

    /** Deletes the session's account: its communities, then its sessions,
        then the account with the cascade. */
    method RemoverUsuario(idSessao: string) returns (out: Outcome)
      requires Valid()
      modifies userManager, userManager.usuarios.Values, sessionManager`sessoes, communityManager`comunidades
      ensures Valid()
      ensures (out, State()) == RemoveAccount(old(State()), idSessao)
    {
      var r := sessionManager.GetUsuarioPorSessao(idSessao);
      if r.Err? {
        return Fail(r.error);
      }
      RemoveAccountResolved(State(), idSessao, r.value.login);
      ExcluirConta(r.value);
      out := Pass;
    }

    /** The three steps of the deletion, in the source's order. */
    method ExcluirConta(usuario: Usuario)
      requires Valid()
      modifies userManager, userManager.usuarios.Values, sessionManager`sessoes, communityManager`comunidades
      ensures Valid()
      ensures State() == SystemState(RemoveUser(old(State()).usuarios, usuario.login),
                                     RemoveOwnedBy(old(State()).comunidades, usuario.login),
                                     old(State()).sessoes.(sessoes := DropSessionsOf(old(State()).sessoes.sessoes, usuario.login)))
    {
      ghost var antes := State();
      DesfazerVinculos(usuario);
      ghost var depois := State();
      label Cascata:
      userManager.RemoverUsuario(usuario);
      communityManager.ViewKept@Cascata();
      assert unchanged@Cascata(sessionManager);
      StateIs(RemoveUser(antes.usuarios, usuario.login), depois.comunidades, depois.sessoes);
    }

    /** The first two steps of the deletion: the communities the user owns
        and the user's sessions go; no account is touched. */
    method DesfazerVinculos(usuario: Usuario)
      requires Valid()
      modifies sessionManager`sessoes, communityManager`comunidades
      ensures Valid()
      ensures State() == SystemState(old(State()).usuarios,
                                     RemoveOwnedBy(old(State()).comunidades, usuario.login),
                                     old(State()).sessoes.(sessoes := DropSessionsOf(old(State()).sessoes.sessoes, usuario.login)))
    {
      label Inicio:
      communityManager.RemoverComunidadesDoUsuario(usuario);
      ghost var comunidades := communityManager.View();
      assert unchanged@Inicio(sessionManager);
      label Sessoes:
      sessionManager.RemoveSessoesDoUsuario(usuario.login);
      communityManager.ViewKept@Sessoes();
      userManager.ViewKept@Inicio();
      StateIs(old(State()).usuarios, comunidades, sessionManager.Table());
    }

    function GetAtributoUsuario(login: string, atributo: string): (r: Result<string>)
      requires Valid()
      reads this, userManager, userManager.Objects(), sessionManager, communityManager, communityManager.comunidades.Values
      ensures r == UserAttribute(userManager.View(), login, atributo)
    {
      var usuario := userManager.GetUsuario(login);
      if usuario == null then Err(UserNotFound)
      else if atributo == "nome" then Ok(usuario.nome)
      else
        match usuario.perfil.GetAtributo(atributo)
        case None => Err(AttributeNotSet)
        case Some(valor) => Ok(valor)
    }

    method EditarPerfil(idSessao: string, atributo: string, valor: string) returns (out: Outcome)
      requires Valid()
      modifies userManager.Objects()
      ensures Valid()
      ensures (out, State()) == EditProfile(old(State()), idSessao, atributo, valor)
    {
      var r := sessionManager.GetUsuarioPorSessao(idSessao);
      if r.Err? {
        return Fail(r.error);
      }
      var usuario := r.value;
      if atributo == "" {
        return Fail(AttributeNotSet);
      }
      ghost var antes := State();
      ghost var dados := usuario.Data();
      assert dados == antes.usuarios[usuario.login];
      out := usuario.perfil.AdicionarAtributo(atributo, valor);
      assert usuario.Data() == dados.(atributos := dados.atributos[atributo := valor]);
      userManager.ViewAfterOne(usuario.login);
      communityManager.ViewKept();
      StateIs(antes.usuarios[usuario.login := usuario.Data()], antes.comunidades, antes.sessoes);
    }

    method LerRecado(idSessao: string) returns (r: Result<string>)
      requires Valid()
      modifies userManager.usuarios.Values
      ensures Valid()
      ensures (r, State()) == ReadNoteOf(old(State()), idSessao)
    {
      var sessao := sessionManager.GetUsuarioPorSessao(idSessao);
      if sessao.Err? {
        return Err(sessao.error);
      }
      var usuario := sessao.value;
      ghost var antes := State();
      ReadNoteOfResolved(antes, idSessao, usuario.login);
      if !usuario.TemRecados() {
        return Err(NoNotes);
      }
      ghost var dados := usuario.Data();
      assert dados == antes.usuarios[usuario.login];
      var recado := usuario.LerRecado();
      assert (recado, usuario.Data()) == ReadNote(dados);
      userManager.ViewAfterOne(usuario.login);
      communityManager.ViewKept();
      StateIs(antes.usuarios[usuario.login := usuario.Data()], antes.comunidades, antes.sessoes);
      r := Ok(recado.value);
    }

    method LerMensagem(idSessao: string) returns (r: Result<string>)
      requires Valid()
      modifies userManager.usuarios.Values
      ensures Valid()
      ensures (r, State()) == ReadMessageOf(old(State()), idSessao)
    {
      var sessao := sessionManager.GetUsuarioPorSessao(idSessao);
      if sessao.Err? {
        return Err(sessao.error);
      }
      var usuario := sessao.value;
      if !usuario.TemMensagens() {
        return Err(NoMessages);
      }
      ghost var antes := State();
      var mensagem := usuario.LerMensagem();
      userManager.ViewAfterOne(usuario.login);
      communityManager.ViewKept();
      StateIs(antes.usuarios[usuario.login := usuario.Data()], antes.comunidades, antes.sessoes);
      r := Ok(mensagem.value);
    }
  }

  // ---------------------------------------------------------------------
  // Properties of the façade

  /** After a reset there is no user, no community and no session that
      resolves, and the next session opened gets "sessao_1". */
  lemma EmptyEffect(id: string)
    ensures Empty().usuarios == map[] && Empty().comunidades == map[]
    ensures SessionLogin(Empty(), id) == Err(UserNotFound)
    ensures Empty().sessoes.proximo == 1 && SessionId(Empty().sessoes.proximo) == "sessao_1"
  {
    FirstIdAfterReset(map["x" := NewUser("x", "x", "x")], "x", "x");
  }

  /** An unresolved session deletes nothing. A resolved one removes the
      account, every community it owned and every session of its login:
      the same id no longer resolves, and no other session can reach the
      login either. */
  lemma RemoveAccountEffect(s: SystemState, idSessao: string)
    ensures var (out, s') := RemoveAccount(s, idSessao);
      && (out.Fail? ==> out == Fail(UserNotFound) && s' == s)
      && (out == Pass <==> SessionLogin(s, idSessao).Ok?)
      && (out == Pass ==>
            var login := SessionLogin(s, idSessao).value;
            && login !in s'.usuarios
            && SessionLogin(s', idSessao).Err?
            && (forall id :: SessionLogin(s', id) != Ok(login))
            && (forall n :: n in s'.comunidades ==> s'.comunidades[n].dono != login)
            && (forall n :: n in s.comunidades && s.comunidades[n].dono != login ==> s'.comunidades[n] == s.comunidades[n])
            && s'.sessoes.proximo == s.sessoes.proximo)
  {
    var (out, s') := RemoveAccount(s, idSessao);
    if out == Pass {
      var login := SessionLogin(s, idSessao).value;
      DropSessionsOfEffect(s.sessoes.sessoes, s.usuarios.Keys, login);
      assert s'.usuarios.Keys == s.usuarios.Keys - {login};
    }
  }

  /** "nome" answers the display name even when the profile holds a "nome"
      key; an unknown user and an unset key are errors. */
  lemma UserAttributeEffect(us: Users, login: string, atributo: string)
    ensures login !in us ==> UserAttribute(us, login, atributo) == Err(UserNotFound)
    ensures login in us ==> UserAttribute(us, login, "nome") == Ok(us[login].nome)
    ensures login in us && atributo != "nome" ==>
      (UserAttribute(us, login, atributo) == Err(AttributeNotSet) <==> atributo !in us[login].atributos)
  {
  }

  /** A profile edit is answered by the next read of that key (except
      "nome", which keeps answering the display name) and leaves every other
      key of every user as it was. An unresolved session fails before the
      key is looked at; an empty key fails and changes nothing. */
  lemma EditThenRead(s: SystemState, idSessao: string, atributo: string, valor: string)
    ensures var (out, s') := EditProfile(s, idSessao, atributo, valor);
      && (SessionLogin(s, idSessao).Err? ==> out == Fail(UserNotFound) && s' == s)
      && (SessionLogin(s, idSessao).Ok? && atributo == "" ==> out == Fail(AttributeNotSet) && s' == s)
      && (out == Pass ==>
            var login := SessionLogin(s, idSessao).value;
            && (atributo != "nome" ==> UserAttribute(s'.usuarios, login, atributo) == Ok(valor))
            && UserAttribute(s'.usuarios, login, "nome") == UserAttribute(s.usuarios, login, "nome"))
      && (forall l, k :: k != atributo ==> UserAttribute(s'.usuarios, l, k) == UserAttribute(s.usuarios, l, k))
  {
  }

  /** Reading notes through the façade: an empty queue is the "no notes"
      error and changes nothing; otherwise the oldest note comes out and the
      rest stay queued in order. */
  lemma ReadNoteOfEffect(s: SystemState, idSessao: string)
    ensures var (r, s') := ReadNoteOf(s, idSessao);
      && (SessionLogin(s, idSessao).Err? ==> r == Err(UserNotFound) && s' == s)
      && (SessionLogin(s, idSessao).Ok? ==>
            var u := s.usuarios[SessionLogin(s, idSessao).value];
            && (u.recadosRecebidos == [] ==> r == Err(NoNotes) && s' == s)
            && (u.recadosRecebidos != [] ==>
                  && r == Ok(u.recadosRecebidos[0])
                  && s'.usuarios[SessionLogin(s, idSessao).value].recadosRecebidos == u.recadosRecebidos[1..]))
  {
  }

  /** Reading community messages through the façade, likewise. */
  lemma ReadMessageOfEffect(s: SystemState, idSessao: string)
    ensures var (r, s') := ReadMessageOf(s, idSessao);
      && (SessionLogin(s, idSessao).Err? ==> r == Err(UserNotFound) && s' == s)
      && (SessionLogin(s, idSessao).Ok? ==>
            var u := s.usuarios[SessionLogin(s, idSessao).value];
            && (u.mensagensRecebidas == [] ==> r == Err(NoMessages) && s' == s)
            && (u.mensagensRecebidas != [] ==>
                  && r == Ok(u.mensagensRecebidas[0])
                  && s'.usuarios[SessionLogin(s, idSessao).value].mensagensRecebidas == u.mensagensRecebidas[1..]))
  {
  }
}
