/** A community: a name, a description, an owner and an insertion-ordered
    set of members (logins). The owner is enrolled on creation and nobody is
    ever removed. */
module Groups {
  import opened Errors
  import opened Text

  datatype CommunityData = CommunityData(nome: string, descricao: string, dono: string, membros: seq<string>)

  /** A freshly created community: its owner is its only member. */
  function NewCommunity(nome: string, descricao: string, dono: string): CommunityData
  {
    CommunityData(nome, descricao, dono, [dono])
  }

  /** The owner comes first and no login is listed twice. */
  predicate WellFormed(c: CommunityData)
  {
    |c.membros| > 0 && c.membros[0] == c.dono && Distinct(c.membros)
  }

  /** A join request: refused when the login is already a member, otherwise
      the login goes to the end of the member list. */
  function Enroll(c: CommunityData, login: string): (Outcome, CommunityData)
  {
    if login in c.membros then (Fail(AlreadyMember), c)
    else (Pass, c.(membros := c.membros + [login]))
  }

  class Comunidade {
    const nome: string
    const descricao: string
    const dono: string
    var membros: seq<string>

    ghost function Data(): CommunityData
      reads this
    {
      CommunityData(nome, descricao, dono, membros)
    }

    constructor (nome: string, descricao: string, dono: string)
      ensures Data() == NewCommunity(nome, descricao, dono)
    {
      this.nome := nome;
      this.descricao := descricao;
      this.dono := dono;
      membros := [dono];
    }

    /** The member logins in joining order. The source hands out a copy; a
        sequence is a value, so nothing done with it reaches the community. */
    function GetMembros(): seq<string>
      reads this
    {
      membros
    }

    method AdicionarMembro(login: string) returns (out: Outcome)
      modifies this
      ensures (out, Data()) == Enroll(old(Data()), login)
    {
      if login in membros {
        return Fail(AlreadyMember);
      }
      membros := membros + [login];
      out := Pass;
    }
  }

  // ---------------------------------------------------------------------
  // Properties of a community

  lemma NewCommunityWellFormed(nome: string, descricao: string, dono: string)
    ensures WellFormed(NewCommunity(nome, descricao, dono))
    ensures NewCommunity(nome, descricao, dono).membros == [dono]
  {
  }

  /** A join keeps the owner first and the members distinct, so the owner
      stays a member for the community's whole life. */
  lemma {:induction false} EnrollKeepsWellFormed(c: CommunityData, login: string)
    requires WellFormed(c)
    ensures WellFormed(Enroll(c, login).1)
    ensures Enroll(c, login).1.dono in Enroll(c, login).1.membros
  {
    var r := Enroll(c, login).1;
    if login !in c.membros {
      forall i, j | 0 <= i < j < |r.membros| ensures r.membros[i] != r.membros[j] {
        if j == |c.membros| {
          assert r.membros[i] == c.membros[i];
        }
      }
    }
    assert r.membros[0] == r.dono;
  }

  /** A join is refused exactly when the login is already a member, and
      then changes nothing. An accepted join appends the login after every
      earlier member, in their order. Name, description and owner never
      change. */
  lemma EnrollEffect(c: CommunityData, login: string)
    ensures var (out, r) := Enroll(c, login);
      && (out == Fail(AlreadyMember) <==> login in c.membros)
      && (out.Fail? ==> r == c)
      && (out == Pass ==> r.membros == c.membros + [login])
      && r.membros[..|c.membros|] == c.membros
      && Elements(r.membros) == Elements(c.membros) + {login}
      && r.nome == c.nome && r.descricao == c.descricao && r.dono == c.dono
  {
    var (out, r) := Enroll(c, login);
    if out == Pass {
      assert Elements(c.membros + [login]) == Elements(c.membros) + {login};
    } else {
      assert Elements(c.membros) + {login} == Elements(c.membros);
    }
  }

  /** Joining twice is the same as joining once; the second request fails. */
  lemma EnrollTwice(c: CommunityData, login: string)
    ensures var r := Enroll(c, login).1;
      Enroll(r, login) == (Fail(AlreadyMember), r)
  {
    var r := Enroll(c, login).1;
    assert login in r.membros;
  }
}
