/** Record validation of the form (`validateCliente` and the save button's
    `isSaveEnabled` in `Main.kt`): only the customer id and the name are
    required. */
module Validation {
  import opened Text
  import opened ClienteRecords

  const IdKey := "idCliente"
  const NomeKey := "nome"
  const IdRequired := "ID obrigatório"
  const NomeRequired := "Nome do Cliente é obrigatório"

  /** The error map validation produces: a key for each blank required field,
      with its message, and nothing else. */
  function RequiredFieldErrors(c: Cliente): (e: map<string, string>)
    ensures IdKey in e <==> IsBlank(c.idCliente)
    ensures NomeKey in e <==> IsBlank(c.nome)
    ensures e.Keys <= {IdKey, NomeKey}
    ensures IdKey in e ==> e[IdKey] == IdRequired
    ensures NomeKey in e ==> e[NomeKey] == NomeRequired
  {
    var e := if IsBlank(c.idCliente) then map[IdKey := IdRequired] else map[];
    if IsBlank(c.nome) then e[NomeKey := NomeRequired] else e
  }

  /** `validateCliente`: fills a fresh error map by conditional inserts and
      returns a copy of the record carrying it. */
  method ValidateCliente(cliente: Cliente) returns (validated: Cliente)
    ensures validated == cliente.(errors := RequiredFieldErrors(cliente))
  {
    var errors: map<string, string> := map[];
    if IsBlank(cliente.idCliente) {
      errors := errors[IdKey := IdRequired];
    }
    if IsBlank(cliente.nome) {
      errors := errors[NomeKey := NomeRequired];
    }
    validated := cliente.(errors := errors);
  }

  /** `isSaveEnabled`. */
  predicate IsSaveEnabled(state: Cliente)
  {
    !IsBlank(state.idCliente) && !IsBlank(state.nome)
  }

  /** The save button is enabled exactly when validation finds nothing. */
  lemma SaveEnabledIffNoErrors(c: Cliente)
    ensures IsSaveEnabled(c) <==> RequiredFieldErrors(c) == map[]
  {
    var e := RequiredFieldErrors(c);
    if IsSaveEnabled(c) {
      assert e.Keys == {};
    } else {
      assert IdKey in e || NomeKey in e;
    }
  }

  /** Errors already on the record play no part: they are replaced, not merged. */
  lemma ValidationIgnoresPriorErrors(c: Cliente, prior: map<string, string>)
    ensures RequiredFieldErrors(c.(errors := prior)) == RequiredFieldErrors(c)
  {
  }

  /** A record with both required fields blank gets exactly the two keys. */
  lemma BothBlankGivesBothKeys(c: Cliente)
    requires IsBlank(c.idCliente) && IsBlank(c.nome)
    ensures RequiredFieldErrors(c).Keys == {IdKey, NomeKey}
  {
  }

  /** The empty form is not submittable. */
  lemma NewClienteIsNotSubmittable()
    ensures !IsSaveEnabled(NewCliente())
  {
    assert Get(NewCliente(), IdCliente) == "";
  }
}
