/** A Jackut user: identity, profile, the relationship sets and the two
    message queues. Relationship sets hold logins, because two users are the
    same user exactly when their logins are equal. */
module Accounts {
  import opened Errors
  import opened Profiles

  /** A snapshot of one user's state. */
  datatype UserData = UserData(
    login: string,
    senha: string,
    nome: string,
    atributos: map<string, string>,
    amigos: set<string>,
    convitesEnviados: set<string>,
    convitesRecebidos: set<string>,
    idolos: set<string>,
    fas: set<string>,
    paqueras: set<string>,
    inimigos: set<string>,
    recadosRecebidos: seq<string>,
    autoresRecados: map<string, string>,   // note text -> author login, one entry per text
    mensagensRecebidas: seq<string>)

  /** The users of the system, by login. */
  type Users = map<string, UserData>

  /** A freshly created account: empty profile, no relations, no messages. */
  function NewUser(login: string, senha: string, nome: string): UserData
  {
    UserData(login, senha, nome, map[], {}, {}, {}, {}, {}, {}, {}, [], map[], [])
  }

  /** The text of the note the platform sends on a mutual crush. */
  function CrushNotice(nome: string): string
  {
    nome + " é seu paquera - Recado do Jackut."
  }

  // ---------------------------------------------------------------------
  // Private notes

  /** Enqueues a note and records its author under the note's text
      (overwriting the author of an earlier note with the same text). */
  function ReceiveNote(u: UserData, autor: string, recado: string): UserData
  {
    u.(recadosRecebidos := u.recadosRecebidos + [recado],
       autoresRecados := u.autoresRecados[recado := autor])
  }

  /** Pops the oldest note (null on an empty queue) and drops the author
      entry of its text. */
  function ReadNote(u: UserData): (Option<string>, UserData)
  {
    if u.recadosRecebidos == [] then (None, u)
    else
      var recado := u.recadosRecebidos[0];
      (Some(recado), u.(recadosRecebidos := u.recadosRecebidos[1..],
                        autoresRecados := u.autoresRecados - {recado}))
  }

  /** A note survives the purge of `login` unless its text's recorded author
      is `login`; a note whose text has no author entry survives. */
  predicate KeepsNote(autores: map<string, string>, login: string, recado: string)
  {
    !(recado in autores && autores[recado] == login)
  }

  function FilterNotes(recados: seq<string>, autores: map<string, string>, login: string): seq<string>
  {
    if recados == [] then []
    else (if KeepsNote(autores, login, recados[0]) then [recados[0]] else [])
         + FilterNotes(recados[1..], autores, login)
  }

  /** The author map without the entries whose author is `login`. */
  function DropAuthor(autores: map<string, string>, login: string): map<string, string>
  {
    map k | k in autores && autores[k] != login :: autores[k]
  }

  /** Removes every queued note attributed to `login`, keeping the order of the rest. */
  function PurgeNotes(u: UserData, login: string): UserData
  {
    u.(recadosRecebidos := FilterNotes(u.recadosRecebidos, u.autoresRecados, login),
       autoresRecados := DropAuthor(u.autoresRecados, login))
  }

  /** What deleting account `login` does to a remaining user. The source
      also "removes" the login from the friend, invite, idol, fan and crush
      sets, but on copies handed out by the getters, so those sets keep it;
      only the enemy set and the notes authored by `login` really change. */
  function Detach(u: UserData, login: string): UserData
  {
    PurgeNotes(u.(inimigos := u.inimigos - {login}), login)
  }

  /** What the deletion cascade evidently means to do to a remaining user:
      `login` leaves every relation set, not only the enemy set, and the
      notes it authored are purged. */
  function DetachAll(u: UserData, login: string): UserData
  {
    PurgeNotes(u.(amigos := u.amigos - {login},
                  convitesEnviados := u.convitesEnviados - {login},
                  convitesRecebidos := u.convitesRecebidos - {login},
                  idolos := u.idolos - {login},
                  fas := u.fas - {login},
                  paqueras := u.paqueras - {login},
                  inimigos := u.inimigos - {login}), login)
  }

  // ---------------------------------------------------------------------
  // Community messages

  function ReceiveMessage(u: UserData, mensagem: string): UserData
  {
    u.(mensagensRecebidas := u.mensagensRecebidas + [mensagem])
  }

  function ReadMessage(u: UserData): (Option<string>, UserData)
  {
    if u.mensagensRecebidas == [] then (None, u)
    else (Some(u.mensagensRecebidas[0]), u.(mensagensRecebidas := u.mensagensRecebidas[1..]))
  }

  // ---------------------------------------------------------------------
  // Edges between two users. Each function updates user `a`, then re-reads
  // user `b`, as the Java code does, so the result is right even if a == b.

  function SendInvite(us: Users, a: string, b: string): Users
    requires a in us && b in us
  {
    if b in us[a].convitesEnviados then us
    else
      var us1 := us[a := us[a].(convitesEnviados := us[a].convitesEnviados + {b})];
      us1[b := us1[b].(convitesRecebidos := us1[b].convitesRecebidos + {a})]
  }

  function AcceptInvite(us: Users, a: string, b: string): (bool, Users)
    requires a in us && b in us
  {
    if b !in us[a].convitesRecebidos then (false, us)
    else
      var us1 := us[a := us[a].(convitesRecebidos := us[a].convitesRecebidos - {b},
                                amigos := us[a].amigos + {b})];
      var us2 := us1[b := us1[b].(amigos := us1[b].amigos + {a})];
      (true, us2[b := us2[b].(convitesEnviados := us2[b].convitesEnviados - {a})])
  }

  function AddIdol(us: Users, a: string, b: string): (Outcome, Users)
    requires a in us && b in us
  {
    if b in us[a].idolos then (Fail(AlreadyIdol), us)
    else
      var us1 := us[a := us[a].(idolos := us[a].idolos + {b})];
      (Pass, us1[b := us1[b].(fas := us1[b].fas + {a})])
  }

  function AddCrush(us: Users, a: string, b: string): (Outcome, Users)
    requires a in us && b in us
  {
    if b in us[a].paqueras then (Fail(AlreadyCrush), us)
    else
      var us1 := us[a := us[a].(paqueras := us[a].paqueras + {b})];
      if a !in us1[b].paqueras then (Pass, us1)
      else
        var us2 := us1[a := ReceiveNote(us1[a], b, CrushNotice(us1[b].nome))];
        (Pass, us2[b := ReceiveNote(us2[b], a, CrushNotice(us2[a].nome))])
  }

  function AddEnemy(us: Users, a: string, b: string): (Outcome, Users)
    requires a in us
  {
    if b in us[a].inimigos then (Fail(AlreadyEnemy), us)
    else (Pass, us[a := us[a].(inimigos := us[a].inimigos + {b})])
  }

  /** Between two different users, a first invite touches each side once. */
  lemma SendInviteDistinct(us: Users, a: string, b: string)
    requires a in us && b in us && a != b && b !in us[a].convitesEnviados
    ensures SendInvite(us, a, b) ==
      us[a := us[a].(convitesEnviados := us[a].convitesEnviados + {b})]
        [b := us[b].(convitesRecebidos := us[b].convitesRecebidos + {a})]
  {
  }

  /** Between two different users, a new idol touches each side once. */
  lemma AddIdolDistinct(us: Users, a: string, b: string)
    requires a in us && b in us && a != b && b !in us[a].idolos
    ensures AddIdol(us, a, b) ==
      (Pass, us[a := us[a].(idolos := us[a].idolos + {b})][b := us[b].(fas := us[b].fas + {a})])
  {
  }

  /** Between two different users, a new crush touches the other side only
      when it makes the crush mutual. */
  lemma AddCrushDistinct(us: Users, a: string, b: string)
    requires a in us && b in us && a != b && b !in us[a].paqueras
    ensures a in us[b].paqueras ==>
      AddCrush(us, a, b) ==
        (Pass, us[a := ReceiveNote(us[a].(paqueras := us[a].paqueras + {b}), b, CrushNotice(us[b].nome))]
                 [b := ReceiveNote(us[b], a, CrushNotice(us[a].nome))])
    ensures a !in us[b].paqueras ==>
      AddCrush(us, a, b) == (Pass, us[a := us[a].(paqueras := us[a].paqueras + {b})][b := us[b]])
  {
    var us1 := us[a := us[a].(paqueras := us[a].paqueras + {b})];
    if a in us[b].paqueras {
      var us2 := us1[a := ReceiveNote(us1[a], b, CrushNotice(us1[b].nome))];
      assert us2[b := ReceiveNote(us2[b], a, CrushNotice(us2[a].nome))] ==
        us[a := ReceiveNote(us[a].(paqueras := us[a].paqueras + {b}), b, CrushNotice(us[b].nome))]
          [b := ReceiveNote(us[b], a, CrushNotice(us[a].nome))];
    } else {
      assert us1[b := us[b]] == us1;
    }
  }

  /** Between two different users, accepting touches each side once. */
  lemma AcceptInviteDistinct(us: Users, a: string, b: string)
    requires a in us && b in us && a != b && b in us[a].convitesRecebidos
    ensures AcceptInvite(us, a, b) ==
      (true, us[a := us[a].(convitesRecebidos := us[a].convitesRecebidos - {b}, amigos := us[a].amigos + {b})]
               [b := us[b].(amigos := us[b].amigos + {a}, convitesEnviados := us[b].convitesEnviados - {a})])
  {
    var us1 := us[a := us[a].(convitesRecebidos := us[a].convitesRecebidos - {b}, amigos := us[a].amigos + {b})];
    var us2 := us1[b := us1[b].(amigos := us1[b].amigos + {a})];
    assert us2[b := us2[b].(convitesEnviados := us2[b].convitesEnviados - {a})] ==
      us1[b := us[b].(amigos := us[b].amigos + {a}, convitesEnviados := us[b].convitesEnviados - {a})];
  }

  /** `fa` is a fan of `idolo`: recorded on the idol's side. */
  predicate IsFanOf(us: Users, fa: string, idolo: string)
  {
    fa in us && idolo in us && fa in us[idolo].fas
  }

  // ---------------------------------------------------------------------
  // The user object

  class Usuario {
    const login: string
    const senha: string
    const nome: string
    const perfil: Perfil
    var amigos: set<string>
    var convitesEnviados: set<string>
    var convitesRecebidos: set<string>
    var recadosRecebidos: seq<string>
    var mensagensRecebidas: seq<string>
    var idolos: set<string>
    var fas: set<string>
    var paqueras: set<string>
    var inimigos: set<string>
    var autoresRecados: map<string, string>

    /** The user's whole state as a value. */
    ghost function Data(): UserData
      reads this, perfil
    {
      UserData(login, senha, nome, perfil.atributos, amigos, convitesEnviados,
               convitesRecebidos, idolos, fas, paqueras, inimigos,
               recadosRecebidos, autoresRecados, mensagensRecebidas)
    }

    constructor (login: string, senha: string, nome: string)
      ensures Data() == NewUser(login, senha, nome)
      ensures fresh(perfil)
    {
      this.login := login;
      this.senha := senha;
      this.nome := nome;
      this.perfil := new Perfil();
      amigos, convitesEnviados, convitesRecebidos := {}, {}, {};
      recadosRecebidos, mensagensRecebidas := [], [];
      idolos, fas, paqueras, inimigos := {}, {}, {}, {};
      autoresRecados := map[];
    }

    // The getters of the relation sets hand out copies; in Dafny a set is a
    // value, so removing from what they return never touches the user.
    function GetAmigos(): set<string> reads this { amigos }
    function GetConvitesEnviados(): set<string> reads this { convitesEnviados }
    function GetConvitesRecebidos(): set<string> reads this { convitesRecebidos }
    function GetIdolos(): set<string> reads this { idolos }
    function GetFas(): set<string> reads this { fas }
    function GetPaqueras(): set<string> reads this { paqueras }

    /** Sends a friend invite; a repeated invite changes nothing. */
    method EnviarConvite(amigo: Usuario)
      modifies this`convitesEnviados, amigo`convitesRecebidos
      ensures old(amigo.login in convitesEnviados) ==>
        convitesEnviados == old(convitesEnviados) && amigo.convitesRecebidos == old(amigo.convitesRecebidos)
      ensures old(amigo.login !in convitesEnviados) ==>
        convitesEnviados == old(convitesEnviados) + {amigo.login} &&
        amigo.convitesRecebidos == old(amigo.convitesRecebidos) + {login}
      ensures amigo != this ==>
        Data() == old(Data()).(convitesEnviados := convitesEnviados) &&
        amigo.Data() == old(amigo.Data()).(convitesRecebidos := amigo.convitesRecebidos)
    {
      if amigo.login !in convitesEnviados {
        convitesEnviados := convitesEnviados + {amigo.login};
        amigo.ReceberConvite(this);
      }
    }

    /** Records an incoming invite (at most once per sender). */
    method ReceberConvite(amigo: Usuario)
      modifies this`convitesRecebidos
      ensures amigo.login in convitesRecebidos
      ensures convitesRecebidos == old(convitesRecebidos) + {amigo.login}
    {
      if amigo.login !in convitesRecebidos {
        convitesRecebidos := convitesRecebidos + {amigo.login};
      }
    }

    /** Admires `idolo`, which makes this user one of its fans. */
    method AdicionarIdolo(idolo: Usuario) returns (out: Outcome)
      modifies this`idolos, idolo`fas
      ensures old(idolo.login in idolos) ==>
        out == Fail(AlreadyIdol) && idolos == old(idolos) && idolo.fas == old(idolo.fas)
      ensures old(idolo.login !in idolos) ==>
        out == Pass && idolos == old(idolos) + {idolo.login} && idolo.fas == old(idolo.fas) + {login}
      ensures out == Pass ==> EhFa(idolo)
      ensures idolo != this ==>
        Data() == old(Data()).(idolos := idolos) && idolo.Data() == old(idolo.Data()).(fas := idolo.fas)
    {
      if idolo.login in idolos {
        return Fail(AlreadyIdol);
      }
      idolos := idolos + {idolo.login};
      idolo.fas := idolo.fas + {login};
      out := Pass;
    }

    /** Adds a crush; when the crush turns out mutual, each side gets one
        notice naming the other, attributed to the other's login. */
    method AdicionarPaquera(paquera: Usuario) returns (out: Outcome)
      modifies this`paqueras, this`recadosRecebidos, this`autoresRecados
      modifies paquera`recadosRecebidos, paquera`autoresRecados
      ensures old(paquera.login in paqueras) ==>
        out == Fail(AlreadyCrush) && paqueras == old(paqueras) &&
        recadosRecebidos == old(recadosRecebidos) && autoresRecados == old(autoresRecados) &&
        paquera.recadosRecebidos == old(paquera.recadosRecebidos) &&
        paquera.autoresRecados == old(paquera.autoresRecados)
      ensures old(paquera.login !in paqueras) ==>
        out == Pass && paqueras == old(paqueras) + {paquera.login}
      // not mutual: no notice
      ensures old(paquera.login !in paqueras) && paquera != this && old(login !in paquera.paqueras) ==>
        recadosRecebidos == old(recadosRecebidos) && autoresRecados == old(autoresRecados) &&
        paquera.recadosRecebidos == old(paquera.recadosRecebidos) &&
        paquera.autoresRecados == old(paquera.autoresRecados)
      // mutual: one notice each
      ensures old(paquera.login !in paqueras) && paquera != this && old(login in paquera.paqueras) ==>
        recadosRecebidos == old(recadosRecebidos) + [CrushNotice(paquera.nome)] &&
        autoresRecados == old(autoresRecados)[CrushNotice(paquera.nome) := paquera.login] &&
        paquera.recadosRecebidos == old(paquera.recadosRecebidos) + [CrushNotice(nome)] &&
        paquera.autoresRecados == old(paquera.autoresRecados)[CrushNotice(nome) := login]
      // a crush on oneself is mutual at once: both notices land in the same queue
      ensures old(paquera.login !in paqueras) && paquera == this ==>
        recadosRecebidos == old(recadosRecebidos) + [CrushNotice(nome), CrushNotice(nome)] &&
        autoresRecados == old(autoresRecados)[CrushNotice(nome) := login]
      ensures paquera != this ==>
        Data() == old(Data()).(paqueras := paqueras, recadosRecebidos := recadosRecebidos,
                               autoresRecados := autoresRecados) &&
        paquera.Data() == old(paquera.Data()).(recadosRecebidos := paquera.recadosRecebidos,
                                               autoresRecados := paquera.autoresRecados)
    {
      if paquera.login in paqueras {
        return Fail(AlreadyCrush);
      }
      paqueras := paqueras + {paquera.login};
      if login in paquera.paqueras {
        var recado1 := CrushNotice(paquera.nome);
        var recado2 := CrushNotice(nome);
        ReceberRecado(paquera.login, recado1);
        paquera.ReceberRecado(login, recado2);
      }
      out := Pass;
    }

    /** Makes `inimigo` an enemy of this user only; the other side is untouched. */
    method AdicionarInimigo(inimigo: Usuario) returns (out: Outcome)
      modifies this`inimigos
      ensures old(inimigo.login in inimigos) ==> out == Fail(AlreadyEnemy) && inimigos == old(inimigos)
      ensures old(inimigo.login !in inimigos) ==> out == Pass && inimigos == old(inimigos) + {inimigo.login}
      ensures Data() == old(Data()).(inimigos := inimigos)
    {
      if inimigo.login in inimigos {
        return Fail(AlreadyEnemy);
      }
      inimigos := inimigos + {inimigo.login};
      out := Pass;
    }

    /** Rebuilds the note queue without the notes whose recorded author is
        `loginRemetente`, then drops every author entry naming it. */
    method LimparRecadosDoUsuario(loginRemetente: string)
      modifies this`recadosRecebidos, this`autoresRecados
      ensures recadosRecebidos == FilterNotes(old(recadosRecebidos), old(autoresRecados), loginRemetente)
      ensures autoresRecados == DropAuthor(old(autoresRecados), loginRemetente)
    {
      var novosRecados: seq<string> := [];
      var i := 0;
      while i < |recadosRecebidos|
        invariant recadosRecebidos == old(recadosRecebidos) && autoresRecados == old(autoresRecados)
        invariant 0 <= i <= |recadosRecebidos|
        invariant novosRecados == FilterNotes(recadosRecebidos[..i], autoresRecados, loginRemetente)
      {
        var recado := recadosRecebidos[i];
        FilterNotesAppend(recadosRecebidos[..i], recado, autoresRecados, loginRemetente);
        assert recadosRecebidos[..i + 1] == recadosRecebidos[..i] + [recado];
        if KeepsNote(autoresRecados, loginRemetente, recado) {
          novosRecados := novosRecados + [recado];
        }
        i := i + 1;
      }
      assert recadosRecebidos[..i] == recadosRecebidos;
      recadosRecebidos := novosRecados;
      autoresRecados := DropAuthor(autoresRecados, loginRemetente);
    }

    /** What deleting account `login` does to this user: the friend,
        invite, idol, fan and crush sets are "cleaned" on the copies the
        getters hand out, so they keep `login`; the enemy set loses it and
        the notes `login` wrote are purged. */
    method Desvincular(login: string)
      modifies this`inimigos, this`recadosRecebidos, this`autoresRecados
      ensures Data() == Detach(old(Data()), login)
    {
      var amigos := GetAmigos() - {login};
      var recebidos := GetConvitesRecebidos() - {login};
      var enviados := GetConvitesEnviados() - {login};
      var idolos := GetIdolos() - {login};
      var fas := GetFas() - {login};
      var paqueras := GetPaqueras() - {login};
      inimigos := inimigos - {login};
      LimparRecadosDoUsuario(login);
    }

    /** Accepts a pending invite from `amigo`: both become friends and the
        invite disappears on both sides. Without a pending invite nothing happens. */
    method AceitarConvite(amigo: Usuario) returns (aceito: bool)
      modifies this`convitesRecebidos, this`amigos, amigo`amigos, amigo`convitesEnviados
      ensures aceito == old(amigo.login in convitesRecebidos)
      ensures aceito ==>
        convitesRecebidos == old(convitesRecebidos) - {amigo.login} &&
        amigos == old(amigos) + {amigo.login} &&
        amigo.amigos == old(amigo.amigos) + {login} &&
        amigo.convitesEnviados == old(amigo.convitesEnviados) - {login}
      ensures !aceito ==>
        convitesRecebidos == old(convitesRecebidos) && amigos == old(amigos) &&
        amigo.amigos == old(amigo.amigos) && amigo.convitesEnviados == old(amigo.convitesEnviados)
      ensures amigo != this ==>
        Data() == old(Data()).(convitesRecebidos := convitesRecebidos, amigos := amigos) &&
        amigo.Data() == old(amigo.Data()).(amigos := amigo.amigos, convitesEnviados := amigo.convitesEnviados)
    {
      if amigo.login in convitesRecebidos {
        convitesRecebidos := convitesRecebidos - {amigo.login};
        amigos := amigos + {amigo.login};
        amigo.amigos := amigo.amigos + {login};
        amigo.convitesEnviados := amigo.convitesEnviados - {login};
        return true;
      }
      return false;
    }

    /** Pops the oldest note, or returns null on an empty queue. */
    method LerRecado() returns (recado: Option<string>)
      modifies this`recadosRecebidos, this`autoresRecados
      ensures (recado, Data()) == ReadNote(old(Data()))
    {
      if recadosRecebidos == [] {
        return None;
      }
      var r := recadosRecebidos[0];
      recadosRecebidos := recadosRecebidos[1..];
      autoresRecados := autoresRecados - {r};
      recado := Some(r);
    }

    predicate TemConvitePendenteDe(usuario: Usuario)
      reads this
    {
      usuario.login in convitesRecebidos
    }

    /** There is a note to read: LerRecado would not return null. */
    predicate TemRecados()
      reads this, perfil
      ensures TemRecados() <==> ReadNote(Data()).0.Some?
    {
      recadosRecebidos != []
    }

    /** Enqueues a note and records its author under the note's text. */
    method ReceberRecado(remetenteLogin: string, recado: string)
      modifies this`recadosRecebidos, this`autoresRecados
      ensures Data() == ReceiveNote(old(Data()), remetenteLogin, recado)
    {
      recadosRecebidos := recadosRecebidos + [recado];
      autoresRecados := autoresRecados[recado := remetenteLogin];
    }

    method ReceberMensagem(mensagem: string)
      modifies this`mensagensRecebidas
      ensures Data() == ReceiveMessage(old(Data()), mensagem)
    {
      mensagensRecebidas := mensagensRecebidas + [mensagem];
    }

    /** There is a community message to read: LerMensagem would not return null. */
    predicate TemMensagens()
      reads this, perfil
      ensures TemMensagens() <==> ReadMessage(Data()).0.Some?
    {
      mensagensRecebidas != []
    }

    /** This user is a fan of `idolo`, as recorded on the idol's side. */
    predicate EhFa(idolo: Usuario)
      reads idolo
    {
      login in idolo.fas
    }

    predicate EhPaquera(paquera: Usuario)
      reads this
    {
      paquera.login in paqueras
    }

    predicate EhInimigo(usuario: Usuario)
      reads this
    {
      usuario.login in inimigos
    }

    /** Pops the oldest community message, or returns null on an empty queue. */
    method LerMensagem() returns (mensagem: Option<string>)
      modifies this`mensagensRecebidas
      ensures (mensagem, Data()) == ReadMessage(old(Data()))
    {
      if mensagensRecebidas == [] {
        return None;
      }
      mensagem := Some(mensagensRecebidas[0]);
      mensagensRecebidas := mensagensRecebidas[1..];
    }
  }

  // ---------------------------------------------------------------------
  // Properties of the note filter

  lemma {:induction false} FilterNotesAppend(recados: seq<string>, recado: string, autores: map<string, string>, login: string)
    ensures FilterNotes(recados + [recado], autores, login) ==
      FilterNotes(recados, autores, login) + (if KeepsNote(autores, login, recado) then [recado] else [])
  {
    FilterNotesConcat(recados, [recado], autores, login);
    assert FilterNotes([recado], autores, login) ==
      (if KeepsNote(autores, login, recado) then [recado] else []) + FilterNotes([], autores, login);
  }

  /** The purge works note by note: filtering a concatenation filters each
      part, so the surviving notes keep their relative order. */
  lemma {:induction false} FilterNotesConcat(xs: seq<string>, ys: seq<string>, autores: map<string, string>, login: string)
    ensures FilterNotes(xs + ys, autores, login) == FilterNotes(xs, autores, login) + FilterNotes(ys, autores, login)
  {
    if xs != [] {
      assert (xs + ys)[1..] == xs[1..] + ys;
      FilterNotesConcat(xs[1..], ys, autores, login);
    } else {
      assert xs + ys == ys;
    }
  }

  /** Exactly the notes not attributed to `login` survive, each as many times as before. */
  lemma {:induction false} FilterNotesCounts(xs: seq<string>, autores: map<string, string>, login: string)
    ensures forall t ::
      multiset(FilterNotes(xs, autores, login))[t] == (if KeepsNote(autores, login, t) then multiset(xs)[t] else 0)
  {
    if xs != [] {
      FilterNotesCounts(xs[1..], autores, login);
      assert xs == [xs[0]] + xs[1..];
    }
  }

  // ---------------------------------------------------------------------
  // Properties of the edges

  /** An invite lands on both sides, and repeating it changes nothing. */
  lemma SendInviteIdempotent(us: Users, a: string, b: string)
    requires a in us && b in us
    ensures b in SendInvite(us, a, b)[a].convitesEnviados
    ensures b !in us[a].convitesEnviados ==> a in SendInvite(us, a, b)[b].convitesRecebidos
    ensures SendInvite(SendInvite(us, a, b), a, b) == SendInvite(us, a, b)
    ensures SendInvite(us, a, b).Keys == us.Keys
  {
  }

  /** Without a pending invite nothing happens; with one, both users become
      friends and the invite is gone from both sides. */
  lemma AcceptInviteEffect(us: Users, a: string, b: string)
    requires a in us && b in us
    ensures b !in us[a].convitesRecebidos ==> AcceptInvite(us, a, b) == (false, us)
    ensures b in us[a].convitesRecebidos ==>
      var (aceito, us') := AcceptInvite(us, a, b);
      aceito && us'.Keys == us.Keys &&
      b in us'[a].amigos && a in us'[b].amigos &&
      b !in us'[a].convitesRecebidos && a !in us'[b].convitesEnviados
  {
  }

  /** A new idol makes the user its fan; a repeated one is refused and changes nothing. */
  lemma AddIdolEffect(us: Users, a: string, b: string)
    requires a in us && b in us
    ensures AddIdol(us, a, b).0 == Pass <==> b !in us[a].idolos
    ensures AddIdol(us, a, b).0 == Pass ==>
      b in AddIdol(us, a, b).1[a].idolos && IsFanOf(AddIdol(us, a, b).1, a, b)
    ensures AddIdol(us, a, b).0 != Pass ==> AddIdol(us, a, b) == (Fail(AlreadyIdol), us)
  {
  }

  /** The crush handshake: the first of two crushes sends nothing, the
      second sends each side one notice naming the other, attributed to
      the other's login. */
  lemma {:induction false} MutualCrushNotices(us: Users, a: string, b: string)
    requires a in us && b in us && a != b
    requires b !in us[a].paqueras && a !in us[b].paqueras
    ensures
      var (primeiro, us1) := AddCrush(us, a, b);
      var (segundo, us2) := AddCrush(us1, b, a);
      && primeiro == Pass && segundo == Pass
      && us1[a].recadosRecebidos == us[a].recadosRecebidos
      && us1[b].recadosRecebidos == us[b].recadosRecebidos
      && us2[a].recadosRecebidos == us[a].recadosRecebidos + [CrushNotice(us[b].nome)]
      && us2[b].recadosRecebidos == us[b].recadosRecebidos + [CrushNotice(us[a].nome)]
      && us2[a].autoresRecados[CrushNotice(us[b].nome)] == b
      && us2[b].autoresRecados[CrushNotice(us[a].nome)] == a
  {
    AddCrushDistinct(us, a, b);
    var us1 := AddCrush(us, a, b).1;
    assert us1[b] == us[b];
    AddCrushDistinct(us1, b, a);
  }

  /** Enmity is one-directional: only the declaring user's enemy set changes. */
  lemma AddEnemyOneWay(us: Users, a: string, b: string)
    requires a in us
    ensures var (out, us') := AddEnemy(us, a, b);
      && us'.Keys == us.Keys
      && (forall l :: l in us && l != a ==> us'[l] == us[l])
      && (out == Pass <==> b !in us[a].inimigos)
      && b in us'[a].inimigos
      && us'[a] == us[a].(inimigos := us[a].inimigos + {b})
  {
  }

  // ---------------------------------------------------------------------
  // Properties of the queues

  /** What repeated reads return until the first null. */
  ghost function ReadAllNotes(u: UserData): seq<string>
    decreases |u.recadosRecebidos|
  {
    match ReadNote(u)
    case (None, _) => []
    case (Some(recado), u') => [recado] + ReadAllNotes(u')
  }

  /** Notes come out in arrival order: reading until null yields the queue. */
  lemma {:induction false} NotesFifo(u: UserData)
    ensures ReadAllNotes(u) == u.recadosRecebidos
    decreases |u.recadosRecebidos|
  {
    if u.recadosRecebidos != [] {
      NotesFifo(ReadNote(u).1);
    }
  }

  /** A received note is read after every note already queued. */
  lemma NoteReadLast(u: UserData, autor: string, recado: string)
    ensures ReadAllNotes(ReceiveNote(u, autor, recado)) == ReadAllNotes(u) + [recado]
  {
    NotesFifo(u);
    NotesFifo(ReceiveNote(u, autor, recado));
  }

  ghost function ReadAllMessages(u: UserData): seq<string>
    decreases |u.mensagensRecebidas|
  {
    match ReadMessage(u)
    case (None, _) => []
    case (Some(mensagem), u') => [mensagem] + ReadAllMessages(u')
  }

  /** Community messages come out in arrival order. */
  lemma {:induction false} MessagesFifo(u: UserData)
    ensures ReadAllMessages(u) == u.mensagensRecebidas
    decreases |u.mensagensRecebidas|
  {
    if u.mensagensRecebidas != [] {
      MessagesFifo(ReadMessage(u).1);
    }
  }

  lemma MessageReadLast(u: UserData, mensagem: string)
    ensures ReadAllMessages(ReceiveMessage(u, mensagem)) == ReadAllMessages(u) + [mensagem]
  {
    MessagesFifo(u);
    MessagesFifo(ReceiveMessage(u, mensagem));
  }

  // ---------------------------------------------------------------------
  // Authorship keyed by note text

  /** Two authors sending the same text share one entry, owned by the later
      one: purging the earlier author then keeps both copies. */
  lemma SameTextLastAuthorWins(u: UserData, x: string, y: string, t: string)
    requires x != y
    ensures var u' := ReceiveNote(ReceiveNote(u, x, t), y, t);
      && u'.autoresRecados[t] == y
      && multiset(PurgeNotes(u', x).recadosRecebidos)[t] == multiset(u.recadosRecebidos)[t] + 2
  {
    var u' := ReceiveNote(ReceiveNote(u, x, t), y, t);
    FilterNotesCounts(u'.recadosRecebidos, u'.autoresRecados, x);
    assert u'.recadosRecebidos == u.recadosRecebidos + [t, t];
  }

  /** Reading one of two notes with the same text erases the shared author
      entry, so the unread copy survives the purge of its author. */
  lemma ReadingErasesSharedAuthor(u: UserData, x: string, t: string)
    requires u.recadosRecebidos == []
    ensures var u' := ReadNote(ReceiveNote(ReceiveNote(u, x, t), x, t)).1;
      && u'.recadosRecebidos == [t]
      && t !in u'.autoresRecados
      && PurgeNotes(u', x).recadosRecebidos == [t]
  {
    var u' := ReadNote(ReceiveNote(ReceiveNote(u, x, t), x, t)).1;
    assert u'.recadosRecebidos == [t];
    assert FilterNotes([t], u'.autoresRecados, x) == [t] + FilterNotes([], u'.autoresRecados, x);
  }

  /** The purge leaves no author entry naming the purged login, and every
      remaining entry is as before. */
  lemma DropAuthorEffect(autores: map<string, string>, login: string)
    ensures forall k :: k in DropAuthor(autores, login) <==> k in autores && autores[k] != login
    ensures forall k :: k in DropAuthor(autores, login) ==> DropAuthor(autores, login)[k] == autores[k]
  {
  }
}
