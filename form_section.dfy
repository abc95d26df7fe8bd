/** The data logic of the form (`formSection` and `dateTextField` in
    `Main.kt`): the input filters each field applies before the record is
    copied, the choice of mask for the CPF/CNPJ field, the edits of the
    consumer-unit and inverter lists, and the save button. */
module FormSection {
  import opened Text
  import opened ClienteRecords
  import opened Validation
  import opened ClientStore
  import Cpf = CpfVisualTransformation
  import Cnpj = CnpjVisualTransformation

  // ------------------------------------------------------------ input filters

  /** `newText.filter { it.isDigit() }.take(6)` for the customer id. */
  function IdClienteInput(text: string): (id: string)
    ensures AllDigits(id) && |id| == Min(6, |KeepDigits(text)|)
    ensures id == KeepDigits(text)[..|id|]
    ensures IsSubsequence(id, text)
  {
    KeepDigitsSubsequence(text);
    SubsequencePrefix(KeepDigits(text), text, Min(6, |KeepDigits(text)|));
    Take(KeepDigits(text), 6)
  }

  /** `newText.filter { it.isDigit() }.take(14)` for CPF/CNPJ. */
  function CpfCnpjInput(text: string): (doc: string)
    ensures AllDigits(doc) && |doc| == Min(14, |KeepDigits(text)|)
    ensures doc == KeepDigits(text)[..|doc|]
    ensures IsSubsequence(doc, text)
  {
    KeepDigitsSubsequence(text);
    SubsequencePrefix(KeepDigits(text), text, Min(14, |KeepDigits(text)|));
    Take(KeepDigits(text), 14)
  }

  /** `newText.filter { it.isDigit() }` for the protocol number: no cap. */
  function ProtocoloInput(text: string): (protocolo: string)
    ensures AllDigits(protocolo)
    ensures IsSubsequence(protocolo, text)
    ensures forall i :: 0 <= i < |text| && IsDigit(text[i]) ==> text[i] in protocolo
    ensures forall c :: multiset(protocolo)[c] == if IsDigit(c) then multiset(text)[c] else 0
  {
    KeepDigitsSubsequence(text);
    DigitsKept(text);
    KeepDigitsCounts(text);
    KeepDigits(text)
  }

  /** `dateTextField`: `newText.filter { it.isDigit() }.take(8)`. */
  function DateInput(text: string): (date: string)
    ensures AllDigits(date) && |date| == Min(8, |KeepDigits(text)|)
    ensures date == KeepDigits(text)[..|date|]
    ensures IsSubsequence(date, text)
  {
    KeepDigitsSubsequence(text);
    SubsequencePrefix(KeepDigits(text), text, Min(8, |KeepDigits(text)|));
    Take(KeepDigits(text), 8)
  }

  lemma {:induction false} DigitsKept(text: string)
    ensures forall i :: 0 <= i < |text| && IsDigit(text[i]) ==> text[i] in KeepDigits(text)
    decreases |text|
  {
    if |text| > 0 {
      DigitsKept(text[1..]);
      assert forall i :: 1 <= i < |text| ==> text[i] == text[1..][i - 1];
    }
  }

  /** The six fields entered through `dateTextField`. */
  predicate IsDateField(f: Field)
  {
    f.DataNascimento? || f.DataRequisicaoProtocolo? || f.DataEntradaProjeto? ||
    f.DataAprovacaoProjeto? || f.DataRequisicaoVistoria? || f.DataAprovacaoVistoria?
  }

  /** The filter each field's `onValueChange` applies before `state.copy`; the
      free-text fields take the text as typed. */
  function InputFilter(f: Field, text: string): string
  {
    match f
    case IdCliente => IdClienteInput(text)
    case CpfCnpj => CpfCnpjInput(text)
    case Protocolo => ProtocoloInput(text)
    case _ => if IsDateField(f) then DateInput(text) else text
  }

  /** Filtering what a filter produced changes nothing. */
  lemma InputFilterIdempotent(f: Field, text: string)
    ensures InputFilter(f, InputFilter(f, text)) == InputFilter(f, text)
  {
  }

  /** Typing `text` into field `f`: the field takes the filtered text and the
      rest of the record is kept. Digit fields hold only digits, and the id,
      CPF/CNPJ and date fields stay within 6, 14 and 8 characters. */
  function FieldInput(state: Cliente, f: Field, text: string): (updated: Cliente)
    ensures Get(updated, f) == InputFilter(f, text)
    ensures forall g :: g != f ==> Get(updated, g) == Get(state, g)
    ensures updated.unidadeConsumidora == state.unidadeConsumidora
    ensures updated.inversores == state.inversores && updated.errors == state.errors
    ensures f == IdCliente ==> AllDigits(updated.idCliente) && |updated.idCliente| <= 6
    ensures f == CpfCnpj ==> AllDigits(updated.cpfCnpj) && |updated.cpfCnpj| <= 14
    ensures f == Protocolo ==> AllDigits(updated.protocolo)
    ensures IsDateField(f) ==> AllDigits(Get(updated, f)) && |Get(updated, f)| <= 8
  {
    With(state, f, InputFilter(f, text))
  }

  // ------------------------------------------------------------ CPF/CNPJ mask

  datatype Mask = CpfMask | CnpjMask | NoMask

  /** The `visualTransformation` chosen by the length of the raw CPF/CNPJ value. */
  function MaskFor(cpfCnpj: string): (m: Mask)
    ensures m == CpfMask <==> |cpfCnpj| <= 11
    ensures m == CnpjMask <==> 12 <= |cpfCnpj| <= 14
  {
    if |cpfCnpj| <= 11 then CpfMask
    else if |cpfCnpj| <= 14 then CnpjMask
    else NoMask
  }

  /** What the CPF/CNPJ field shows for its raw value. */
  function CpfCnpjDisplay(cpfCnpj: string): string
  {
    match MaskFor(cpfCnpj)
    case CpfMask => Cpf.Format(cpfCnpj)
    case CnpjMask => Cnpj.Format(cpfCnpj)
    case NoMask => cpfCnpj
  }

  /** Whatever is typed, the filtered value gets the CPF mask up to 11 digits
      and the CNPJ mask from 12 to 14: the unmasked case is never reached. */
  lemma TypedCpfCnpjIsMasked(text: string)
    ensures MaskFor(CpfCnpjInput(text)) != NoMask
    ensures |KeepDigits(text)| <= 11 ==> MaskFor(CpfCnpjInput(text)) == CpfMask
    ensures |KeepDigits(text)| >= 12 ==> MaskFor(CpfCnpjInput(text)) == CnpjMask
  {
  }

  /** Either mask shows every typed digit: removing the separators from the
      display gives back the stored value. */
  lemma CpfCnpjDisplayStrips(text: string)
    ensures KeepDigits(CpfCnpjDisplay(CpfCnpjInput(text))) == CpfCnpjInput(text)
  {
    var doc := CpfCnpjInput(text);
    assert Take(doc, Cnpj.Width) == doc;
    if |doc| <= 11 {
      assert Take(doc, Cpf.Width) == doc;
    }
  }

  // ------------------------------------------------------------ sub-record lists

  /** The "Número UC" edit: `toMutableList().apply { this[index] = this[index].copy(numero = …) }`
      on a copy of the list, then `state.copy(unidadeConsumidora = …)`. */
  method EditUnidadeNumero(state: Cliente, index: nat, numero: string) returns (updated: Cliente)
    requires index < |state.unidadeConsumidora|
    ensures |updated.unidadeConsumidora| == |state.unidadeConsumidora|
    ensures updated.unidadeConsumidora[index].numero == numero
    ensures forall j :: 0 <= j < |state.unidadeConsumidora| && j != index ==>
              updated.unidadeConsumidora[j] == state.unidadeConsumidora[j]
    ensures updated == state.(unidadeConsumidora := updated.unidadeConsumidora)
  {
    var updatedList := state.unidadeConsumidora;
    updatedList := updatedList[index := updatedList[index].(numero := numero)];
    updated := state.(unidadeConsumidora := updatedList);
  }

  /** The inverter edits (brand, serial number, login, password): the same
      copy-and-assign on the inverter list, changing field `f` of entry `index`. */
  method EditInversor(state: Cliente, index: nat, f: InversorField, value: string) returns (updated: Cliente)
    requires index < |state.inversores|
    ensures |updated.inversores| == |state.inversores|
    ensures GetInversor(updated.inversores[index], f) == value
    ensures forall g :: g != f ==> GetInversor(updated.inversores[index], g) == GetInversor(state.inversores[index], g)
    ensures forall j :: 0 <= j < |state.inversores| && j != index ==> updated.inversores[j] == state.inversores[j]
    ensures updated == state.(inversores := updated.inversores)
  {
    var updatedList := state.inversores;
    updatedList := updatedList[index := WithInversor(updatedList[index], f, value)];
    updated := state.(inversores := updatedList);
  }

  /** The "Add UC" card: one empty consumer unit appended, nothing else changed. */
  function AddUnidade(state: Cliente): (updated: Cliente)
    ensures |updated.unidadeConsumidora| == |state.unidadeConsumidora| + 1
    ensures updated.unidadeConsumidora[..|state.unidadeConsumidora|] == state.unidadeConsumidora
    ensures updated.unidadeConsumidora[|state.unidadeConsumidora|].numero == ""
    ensures updated == state.(unidadeConsumidora := updated.unidadeConsumidora)
  {
    state.(unidadeConsumidora := state.unidadeConsumidora + [NewUnidadeConsumidora()])
  }

  /** The "Add Inversor" card: one empty inverter appended, nothing else changed. */
  function AddInversor(state: Cliente): (updated: Cliente)
    ensures |updated.inversores| == |state.inversores| + 1
    ensures updated.inversores[..|state.inversores|] == state.inversores
    ensures forall g :: GetInversor(updated.inversores[|state.inversores|], g) == ""
    ensures updated == state.(inversores := updated.inversores)
  {
    state.(inversores := state.inversores + [NewInversor()])
  }

  // ------------------------------------------------------------ save button

  datatype SubmitOutcome =
      /** Saved: what was written to the file, and the notice shown. */
    | Saved(written: seq<Cliente>, notice: string)
      /** Not saved: the record shown next, carrying its errors, and the notice. */
    | Rejected(shown: Cliente, notice: string)

  /** The "Salvar" button: validate; when no errors, save the validated record
      (write failures are not modelled); otherwise show the errors. */
  method Submit(file: StoredFile, state: Cliente) returns (outcome: SubmitOutcome)
    ensures outcome.Saved? <==> IsSaveEnabled(state)
    ensures outcome.Saved? ==>
              outcome.written == Upserted(LoadClientData(file), state.(errors := map[])) &&
              outcome.notice == "Cliente salvo com sucesso!"
    ensures outcome.Rejected? ==>
              outcome.shown == state.(errors := RequiredFieldErrors(state)) &&
              outcome.shown.errors != map[] &&
              outcome.notice == "Corrija os campos obrigatórios"
  {
    var validated := ValidateCliente(state);
    SaveEnabledIffNoErrors(state);
    if validated.errors == map[] {
      var written := SaveClientData(file, validated);
      outcome := Saved(written, "Cliente salvo com sucesso!");
    } else {
      outcome := Rejected(validated, "Corrija os campos obrigatórios");
    }
  }
}
