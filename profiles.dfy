/** A user's profile: an open key/value attribute bag, changed in place. */
module Profiles {
  import opened Errors

  class Perfil {
    var atributos: map<string, string>

    constructor ()
      ensures atributos == map[]
    {
      atributos := map[];
    }

    /** Adds or overwrites one attribute; an empty key is refused and
        leaves the profile as it was. */
    method AdicionarAtributo(chave: string, valor: string) returns (out: Outcome)
      modifies this
      ensures chave == "" ==> out == Fail(AttributeNotSet) && atributos == old(atributos)
      ensures chave != "" ==> out == Pass && atributos == old(atributos)[chave := valor]
      ensures chave != "" ==> GetAtributo(chave) == Some(valor)
      ensures forall k :: k != chave ==> GetAtributo(k) == old(GetAtributo(k))
    {
      if chave == "" {
        return Fail(AttributeNotSet);
      }
      atributos := atributos[chave := valor];
      out := Pass;
    }

    /** The value last written under a key, or null if the key was never written. */
    function GetAtributo(chave: string): (v: Option<string>)
      reads this
      ensures v == None <==> chave !in atributos
      ensures chave in atributos ==> v == Some(atributos[chave])
    {
      if chave in atributos then Some(atributos[chave]) else None
    }
  }
}
