/** The records of `Cliente.kt`: a customer with its consumer units and
    inverters, as plain immutable values with their default contents. */
module ClienteRecords {

  datatype UnidadeConsumidora = UnidadeConsumidora(numero: string)

  datatype Inversor = Inversor(marca: string, sn: string, login: string, senha: string)

  datatype Cliente = Cliente(
    idCliente: string,
    nome: string,
    cpfCnpj: string,
    eMail: string,
    dataNascimento: string,
    dataRequisicaoProtocolo: string,
    dataEntradaProjeto: string,
    dataAprovacaoProjeto: string,
    dataRequisicaoVistoria: string,
    dataAprovacaoVistoria: string,
    protocolo: string,
    trtCft: string,
    unidadeConsumidora: seq<UnidadeConsumidora>,
    loginCelesc: string,
    senhaCelesc: string,
    inversores: seq<Inversor>,
    errors: map<string, string>)

  /** The text fields of a `Cliente`, one per form input. */
  datatype Field =
    | IdCliente | Nome | CpfCnpj | EMail | DataNascimento
    | DataRequisicaoProtocolo | DataEntradaProjeto | DataAprovacaoProjeto
    | DataRequisicaoVistoria | DataAprovacaoVistoria | Protocolo | TrtCft
    | LoginCelesc | SenhaCelesc

  /** The text fields of an `Inversor`. */
  datatype InversorField = Marca | Sn | Login | Senha

  function Get(c: Cliente, f: Field): string
  {
    match f
    case IdCliente => c.idCliente
    case Nome => c.nome
    case CpfCnpj => c.cpfCnpj
    case EMail => c.eMail
    case DataNascimento => c.dataNascimento
    case DataRequisicaoProtocolo => c.dataRequisicaoProtocolo
    case DataEntradaProjeto => c.dataEntradaProjeto
    case DataAprovacaoProjeto => c.dataAprovacaoProjeto
    case DataRequisicaoVistoria => c.dataRequisicaoVistoria
    case DataAprovacaoVistoria => c.dataAprovacaoVistoria
    case Protocolo => c.protocolo
    case TrtCft => c.trtCft
    case LoginCelesc => c.loginCelesc
    case SenhaCelesc => c.senhaCelesc
  }

  /** `c.copy(<f> = v)`: the named field takes the new value and everything
      else, lists and error map included, is carried over. */
  function With(c: Cliente, f: Field, v: string): (r: Cliente)
    ensures Get(r, f) == v
    ensures forall g :: g != f ==> Get(r, g) == Get(c, g)
    ensures r.unidadeConsumidora == c.unidadeConsumidora && r.inversores == c.inversores
    ensures r.errors == c.errors
  {
    match f
    case IdCliente => c.(idCliente := v)
    case Nome => c.(nome := v)
    case CpfCnpj => c.(cpfCnpj := v)
    case EMail => c.(eMail := v)
    case DataNascimento => c.(dataNascimento := v)
    case DataRequisicaoProtocolo => c.(dataRequisicaoProtocolo := v)
    case DataEntradaProjeto => c.(dataEntradaProjeto := v)
    case DataAprovacaoProjeto => c.(dataAprovacaoProjeto := v)
    case DataRequisicaoVistoria => c.(dataRequisicaoVistoria := v)
    case DataAprovacaoVistoria => c.(dataAprovacaoVistoria := v)
    case Protocolo => c.(protocolo := v)
    case TrtCft => c.(trtCft := v)
    case LoginCelesc => c.(loginCelesc := v)
    case SenhaCelesc => c.(senhaCelesc := v)
  }

  function GetInversor(i: Inversor, f: InversorField): string
  {
    match f
    case Marca => i.marca
    case Sn => i.sn
    case Login => i.login
    case Senha => i.senha
  }

  /** `inversor.copy(<f> = v)`. */
  function WithInversor(i: Inversor, f: InversorField, v: string): (r: Inversor)
    ensures GetInversor(r, f) == v
    ensures forall g :: g != f ==> GetInversor(r, g) == GetInversor(i, g)
  {
    match f
    case Marca => i.(marca := v)
    case Sn => i.(sn := v)
    case Login => i.(login := v)
    case Senha => i.(senha := v)
  }

  /** `UnidadeConsumidora()`. */
  function NewUnidadeConsumidora(): (u: UnidadeConsumidora)
    ensures u.numero == ""
  {
    UnidadeConsumidora("")
  }

  /** `Inversor()`: every field empty. */
  function NewInversor(): (i: Inversor)
    ensures forall f :: GetInversor(i, f) == ""
  {
    Inversor("", "", "", "")
  }

  /** `Cliente()`: every text field empty, one empty consumer unit, one empty
      inverter and no errors. */
  function NewCliente(): (c: Cliente)
    ensures forall f :: Get(c, f) == ""
    ensures c.unidadeConsumidora == [NewUnidadeConsumidora()]
    ensures c.inversores == [NewInversor()]
    ensures c.errors == map[]
  {
    Cliente("", "", "", "", "", "", "", "", "", "", "", "",
            [NewUnidadeConsumidora()], "", "", [NewInversor()], map[])
  }

  /** Two records agree on every field exactly when they are equal: the record
      holds nothing beyond its declared fields. */
  lemma SameFieldsSameRecord(a: Cliente, b: Cliente)
    requires forall f :: Get(a, f) == Get(b, f)
    requires a.unidadeConsumidora == b.unidadeConsumidora && a.inversores == b.inversores
    requires a.errors == b.errors
    ensures a == b
  {
    assert Get(a, IdCliente) == Get(b, IdCliente);
    assert Get(a, Nome) == Get(b, Nome);
    assert Get(a, CpfCnpj) == Get(b, CpfCnpj);
    assert Get(a, EMail) == Get(b, EMail);
    assert Get(a, DataNascimento) == Get(b, DataNascimento);
    assert Get(a, DataRequisicaoProtocolo) == Get(b, DataRequisicaoProtocolo);
    assert Get(a, DataEntradaProjeto) == Get(b, DataEntradaProjeto);
    assert Get(a, DataAprovacaoProjeto) == Get(b, DataAprovacaoProjeto);
    assert Get(a, DataRequisicaoVistoria) == Get(b, DataRequisicaoVistoria);
    assert Get(a, DataAprovacaoVistoria) == Get(b, DataAprovacaoVistoria);
    assert Get(a, Protocolo) == Get(b, Protocolo);
    assert Get(a, TrtCft) == Get(b, TrtCft);
    assert Get(a, LoginCelesc) == Get(b, LoginCelesc);
    assert Get(a, SenhaCelesc) == Get(b, SenhaCelesc);
  }

  /** Copying a field with the value it already holds gives the same record. */
  lemma WithCurrentValue(c: Cliente, f: Field)
    ensures With(c, f, Get(c, f)) == c
  {
    SameFieldsSameRecord(With(c, f, Get(c, f)), c);
  }

  /** A later copy of the same field overrides an earlier one. */
  lemma WithTwice(c: Cliente, f: Field, v: string, w: string)
    ensures With(With(c, f, v), f, w) == With(c, f, w)
  {
    SameFieldsSameRecord(With(With(c, f, v), f, w), With(c, f, w));
  }
}
