/** The session table: opening a session with login and password, resolving
    a session id to its user, closing a user's sessions, and the reset. Ids
    are "sessao_" followed by a Java `int` counter. */
module SessionManagement {
  import opened Errors
  import opened Text
  import opened Accounts
  import opened UserManagement

  const INT_MIN: int := -0x8000_0000
  const INT_MAX: int := 0x7fff_ffff

  /** A value of Java's 32-bit `int`. */
  predicate IsInt(n: int)
  {
    INT_MIN <= n <= INT_MAX
  }

  /** Java's `int` increment: the successor, wrapping from the largest value
      to the smallest. */
  function NextInt(n: int): (r: int)
    requires IsInt(n)
    ensures IsInt(r)
  {
    if n == INT_MAX then INT_MIN else n + 1
  }

  /** The id issued for counter value `n`. */
  function SessionId(n: int): string
  {
    "sessao_" + IntToString(n)
  }

  /** The table as a value: session id to login, and the next counter value. */
  datatype SessionTable = SessionTable(sessoes: map<string, string>, proximo: int)

  /** Opening a session: an unknown login or a wrong password is refused and
      leaves the table alone; otherwise the id built from the counter is
      mapped to the login and the counter moves on. */
  function OpenSession(t: SessionTable, us: Users, login: string, senha: string): (Result<string>, SessionTable)
    requires IsInt(t.proximo)
  {
    if login !in us || us[login].senha != senha then (Err(InvalidCredentials), t)
    else
      var id := SessionId(t.proximo);
      (Ok(id), SessionTable(t.sessoes[id := login], NextInt(t.proximo)))
  }

  /** The login a session id stands for, as long as that account still
      exists. */
  function Resolve(sessoes: map<string, string>, logins: set<string>, idSessao: string): Result<string>
  {
    if idSessao == "" then Err(UserNotFound)
    else if idSessao !in sessoes || sessoes[idSessao] !in logins then Err(UserNotFound)
    else Ok(sessoes[idSessao])
  }

  /** The sessions left once every session of `login` is closed. */
  function DropSessionsOf(sessoes: map<string, string>, login: string): map<string, string>
  {
    map id | id in sessoes && sessoes[id] != login :: sessoes[id]
  }

  class SessionManager {
    var sessoes: map<string, string>
    var proximoIdSessao: int
    const userManager: UserManager

    ghost predicate Valid()
      reads this
    {
      IsInt(proximoIdSessao)
    }

    ghost function Table(): SessionTable
      reads this
    {
      SessionTable(sessoes, proximoIdSessao)
    }

    constructor (userManager: UserManager)
      ensures Valid() && sessoes == map[] && proximoIdSessao == 1
      ensures this.userManager == userManager
    {
      sessoes := map[];
      proximoIdSessao := 1;
      this.userManager := userManager;
    }

    method AbrirSessao(login: string, senha: string) returns (r: Result<string>)
      requires Valid()
      modifies this`sessoes, this`proximoIdSessao
      ensures Valid()
      ensures (r, Table()) == OpenSession(old(Table()), userManager.View(), login, senha)
    {
      var usuario := userManager.GetUsuario(login);
      if usuario == null || usuario.senha != senha {
        return Err(InvalidCredentials);
      }
      var idSessao := SessionId(proximoIdSessao);
      proximoIdSessao := NextInt(proximoIdSessao);
      sessoes := sessoes[idSessao := login];
      r := Ok(idSessao);
    }

    /** The account a session id stands for: the empty id, an unknown id and
        the id of a deleted account all fail with UserNotFound. */
    function GetUsuarioPorSessao(idSessao: string): (r: Result<Usuario>)
      requires userManager.Valid()
      reads this, userManager
      ensures r.Err? <==> Resolve(sessoes, userManager.usuarios.Keys, idSessao).Err?
      ensures r.Err? ==> r.error == UserNotFound
      ensures r.Ok? ==> Resolve(sessoes, userManager.usuarios.Keys, idSessao) == Ok(r.value.login)
      ensures r.Ok? ==> r.value.login in userManager.usuarios && userManager.usuarios[r.value.login] == r.value
    {
      if idSessao == "" then Err(UserNotFound)
      else if idSessao !in sessoes || !userManager.ContainsUsuario(sessoes[idSessao]) then Err(UserNotFound)
      else
        var usuario := userManager.GetUsuario(sessoes[idSessao]);
        if usuario == null then Err(UserNotFound) else Ok(usuario)
    }

    method RemoveSessoesDoUsuario(login: string)
      modifies this`sessoes
      ensures sessoes == DropSessionsOf(old(sessoes), login)
    {
      sessoes := map id | id in sessoes && sessoes[id] != login :: sessoes[id];
    }

    method Clear()
      modifies this`sessoes, this`proximoIdSessao
      ensures Valid() && sessoes == map[] && proximoIdSessao == 1
    {
      sessoes := map[];
      proximoIdSessao := 1;
    }
  }

  // ---------------------------------------------------------------------
  // Properties of the session table

  /** Wrong credentials change nothing; right ones issue the id of the
      current counter, which at once resolves to the login. */
  lemma OpenSessionEffect(t: SessionTable, us: Users, login: string, senha: string)
    requires IsInt(t.proximo)
    ensures var (r, t') := OpenSession(t, us, login, senha);
      && (r == Err(InvalidCredentials) <==> login !in us || us[login].senha != senha)
      && (r.Err? ==> t' == t)
      && (r.Ok? ==>
            && r.value == SessionId(t.proximo)
            && t'.sessoes == t.sessoes[r.value := login]
            && t'.proximo == NextInt(t.proximo)
            && Resolve(t'.sessoes, us.Keys, r.value) == Ok(login))
  {
  }

  /** Different counter values give different ids. */
  lemma SessionIdInjective(a: int, b: int)
    requires SessionId(a) == SessionId(b)
    ensures a == b
  {
    var p := "sessao_";
    assert IntToString(a) == SessionId(a)[|p|..] == SessionId(b)[|p|..] == IntToString(b);
    IntToStringInjective(a, b);
  }

  /** A session whose account is gone no longer resolves, and the sessions
      of a closed login are all gone while the others stay. */
  lemma DropSessionsOfEffect(sessoes: map<string, string>, logins: set<string>, login: string)
    ensures var s := DropSessionsOf(sessoes, login);
      && (forall id :: id in s <==> id in sessoes && sessoes[id] != login)
      && (forall id :: id in s ==> s[id] == sessoes[id])
      && (forall id :: Resolve(s, logins, id) != Ok(login))
      && (forall id :: Resolve(sessoes, logins - {login}, id) != Ok(login))
  {
  }

  /** After a reset the next id issued is "sessao_1". */
  lemma FirstIdAfterReset(us: Users, login: string, senha: string)
    requires login in us && us[login].senha == senha
    ensures OpenSession(SessionTable(map[], 1), us, login, senha).0 == Ok("sessao_1")
  {
    assert IntToString(1) == "1";
    assert SessionId(1) == "sessao_" + "1" == "sessao_1";
  }

  // ---------------------------------------------------------------------
  // Distinct ids between resets

  /** The counter value after `k` increments. */
  function Advance(n: int, k: nat): (r: int)
    requires IsInt(n)
    ensures IsInt(r)
  {
    if k == 0 then n else NextInt(Advance(n, k - 1))
  }

  /** A 32-bit wrap of an unbounded integer. */
  function Wrap(x: int): int
  {
    (x - INT_MIN) % 0x1_0000_0000 + INT_MIN
  }

  lemma {:induction false} AdvanceIsWrap(n: int, k: nat)
    requires IsInt(n)
    ensures Advance(n, k) == Wrap(n + k)
  {
    if k > 0 {
      AdvanceIsWrap(n, k - 1);
      var x := n + k - 1 - INT_MIN;
      assert 0 <= x;
      if x % 0x1_0000_0000 == 0x1_0000_0000 - 1 {
        assert (x + 1) % 0x1_0000_0000 == 0;
      } else {
        assert (x + 1) % 0x1_0000_0000 == x % 0x1_0000_0000 + 1;
      }
    }
  }

  /** Wrapping is one-to-one on any 2^32 consecutive integers. */
  lemma WrapDistinct(x: int, d: int)
    requires 0 < d < 0x1_0000_0000
    ensures Wrap(x) != Wrap(x + d)
  {
    var m := 0x1_0000_0000;
    var a, b := x - INT_MIN, x + d - INT_MIN;
    assert a == m * (a / m) + a % m && b == m * (b / m) + b % m;
  }

  /** Fewer than 2^32 sessions opened after a reset all get different ids;
      only the 2^32-th wrap of the counter would reuse one. */
  lemma IdsDistinctBetweenResets(n: int, i: nat, j: nat)
    requires IsInt(n) && i < j < 0x1_0000_0000
    ensures SessionId(Advance(n, i)) != SessionId(Advance(n, j))
  {
    AdvanceIsWrap(n, i);
    AdvanceIsWrap(n, j);
    WrapDistinct(n + i, j - i);
    if SessionId(Advance(n, i)) == SessionId(Advance(n, j)) {
      SessionIdInjective(Advance(n, i), Advance(n, j));
    }
  }

  /** The 2^32-th increment brings the counter back to where it started, so
      the id issued then repeats the first one (and the table entry under it
      is overwritten). */
  lemma CounterWrapsAround(n: int)
    requires IsInt(n)
    ensures Advance(n, 0x1_0000_0000) == n
  {
    AdvanceIsWrap(n, 0x1_0000_0000);
  }
}
