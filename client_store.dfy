/** The record store of `Main.kt` (`saveClientData`, `loadClientData`): the
    whole list of customers lives in one file that is read in full, updated
    by id and written back in full. The file is modelled by what reading it
    yields; the JSON text itself is not modelled. */
module ClientStore {
  import opened ClienteRecords

  /** What reading the data file yields: no file, a file that does not parse
      as a list of customers, or the list it holds. */
  datatype StoredFile = Missing | Unparsable | Stored(records: seq<Cliente>)

  /** `loadClientData`, and the read at the start of `saveClientData`: a missing
      or unparsable file reads as the empty list. */
  function LoadClientData(file: StoredFile): (records: seq<Cliente>)
    ensures file.Stored? ==> records == file.records
    ensures !file.Stored? ==> records == []
  {
    match file
    case Stored(rs) => rs
    case _ => []
  }

  predicate HasId(records: seq<Cliente>, id: string)
  {
    exists j :: 0 <= j < |records| && records[j].idCliente == id
  }

  /** `indexOfFirst { it.idCliente == id }`: the first position holding `id`, or -1. */
  function FirstIndexOfId(records: seq<Cliente>, id: string): (index: int)
    ensures -1 <= index < |records|
    ensures index == -1 <==> !HasId(records, id)
    ensures index >= 0 ==> records[index].idCliente == id
    ensures index >= 0 ==> forall j :: 0 <= j < index ==> records[j].idCliente != id
  {
    if |records| == 0 then -1
    else if records[0].idCliente == id then 0
    else
      var k := FirstIndexOfId(records[1..], id);
      assert forall j :: 0 < j < |records| ==> records[j] == records[1..][j - 1];
      if k == -1 then -1 else k + 1
  }

  /** The scan `indexOfFirst` performs. */
  method IndexOfFirst(records: seq<Cliente>, id: string) returns (index: int)
    ensures index == FirstIndexOfId(records, id)
  {
    var i := 0;
    while i < |records|
      invariant 0 <= i <= |records|
      invariant forall j :: 0 <= j < i ==> records[j].idCliente != id
    {
      if records[i].idCliente == id {
        return i;
      }
      i := i + 1;
    }
    return -1;
  }

  /** The list `saveClientData` writes back: the record replaces the first one
      with its id, or is appended when there is none. */
  function Upserted(records: seq<Cliente>, cliente: Cliente): seq<Cliente>
  {
    var index := FirstIndexOfId(records, cliente.idCliente);
    if index != -1 then records[index := cliente] else records + [cliente]
  }

  /** `saveClientData`: reads the current list, replaces or appends in place,
      and returns what is written back to the file. */
  method SaveClientData(file: StoredFile, cliente: Cliente) returns (written: seq<Cliente>)
    ensures written == Upserted(LoadClientData(file), cliente)
  {
    var existing := LoadClientData(file);
    var index := IndexOfFirst(existing, cliente.idCliente);
    if index != -1 {
      existing := existing[index := cliente];
    } else {
      existing := existing + [cliente];
    }
    written := existing;
  }

  /** With a stored record of the same id, only the first such position
      changes; the length stays. */
  lemma UpsertReplacesFirstMatch(records: seq<Cliente>, cliente: Cliente, i: nat)
    requires i < |records| && records[i].idCliente == cliente.idCliente
    requires forall j :: 0 <= j < i ==> records[j].idCliente != cliente.idCliente
    ensures |Upserted(records, cliente)| == |records|
    ensures Upserted(records, cliente)[i] == cliente
    ensures forall j :: 0 <= j < |records| && j != i ==> Upserted(records, cliente)[j] == records[j]
  {
    assert HasId(records, cliente.idCliente);
  }

  /** With no stored record of that id, the record goes at the end and the
      rest is kept. */
  lemma UpsertAppendsNew(records: seq<Cliente>, cliente: Cliente)
    requires !HasId(records, cliente.idCliente)
    ensures Upserted(records, cliente) == records + [cliente]
  {
  }

  /** Either way the record ends up in the list. */
  lemma UpsertContains(records: seq<Cliente>, cliente: Cliente)
    ensures cliente in Upserted(records, cliente)
  {
    var index := FirstIndexOfId(records, cliente.idCliente);
    if index == -1 {
      assert (records + [cliente])[|records|] == cliente;
    } else {
      assert records[index := cliente][index] == cliente;
    }
  }

  /** Saving the same record twice leaves the list as saving it once. */
  lemma UpsertIdempotent(records: seq<Cliente>, cliente: Cliente)
    ensures Upserted(Upserted(records, cliente), cliente) == Upserted(records, cliente)
  {
    var once := Upserted(records, cliente);
    var index := FirstIndexOfId(records, cliente.idCliente);
    var i := if index == -1 then |records| else index;
    assert once[i] == cliente;
    assert forall j :: 0 <= j < i ==> once[j] == records[j];
    UpsertReplacesFirstMatch(once, cliente, i);
    assert Upserted(once, cliente) == once[i := cliente];
  }

  /** Every stored record with another id survives, at the same position. */
  lemma UpsertKeepsOtherRecords(records: seq<Cliente>, cliente: Cliente, j: nat)
    requires j < |records| && records[j].idCliente != cliente.idCliente
    ensures j < |Upserted(records, cliente)| && Upserted(records, cliente)[j] == records[j]
  {
  }

  predicate UniqueIds(records: seq<Cliente>)
  {
    forall i, j :: 0 <= i < j < |records| ==> records[i].idCliente != records[j].idCliente
  }

  /** The store keeps ids unique, and after the save the record is the one
      entry with its id. */
  lemma UpsertPreservesUniqueIds(records: seq<Cliente>, cliente: Cliente)
    requires UniqueIds(records)
    ensures UniqueIds(Upserted(records, cliente))
    ensures forall j :: 0 <= j < |Upserted(records, cliente)| &&
                        Upserted(records, cliente)[j].idCliente == cliente.idCliente
                        ==> Upserted(records, cliente)[j] == cliente
  {
    var r := Upserted(records, cliente);
    var index := FirstIndexOfId(records, cliente.idCliente);
    if index == -1 {
      assert forall j :: 0 <= j < |records| ==> r[j] == records[j];
    } else {
      forall a, b | 0 <= a < b < |r| ensures r[a].idCliente != r[b].idCliente {
        if a != index && b != index {
          assert r[a] == records[a] && r[b] == records[b];
        } else if a == index {
          assert records[b].idCliente != records[index].idCliente;
        } else {
          assert records[a].idCliente != records[index].idCliente;
        }
      }
    }
  }

  /** A file that does not parse is overwritten with the new record alone:
      the earlier contents are lost. */
  lemma SaveOverUnparsableFileKeepsOnlyNew(cliente: Cliente)
    ensures Upserted(LoadClientData(Unparsable), cliente) == [cliente]
  {
  }

  lemma UpsertExamples(a: Cliente, a2: Cliente, b: Cliente, c: Cliente)
    requires a.idCliente == "1" && a2.idCliente == "1" && b.idCliente == "2" && c.idCliente == "3"
    ensures Upserted([a, b], a2) == [a2, b]
    ensures Upserted([a, b], c) == [a, b, c]
  {
    assert FirstIndexOfId([a, b], "1") == 0;
    assert [a, b][1..] == [b];
    assert FirstIndexOfId([a, b], "3") == -1;
  }
}
