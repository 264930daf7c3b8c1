/**
 * The document shape the Cosmos DB memory store keeps (`AzureCosmosDbMemoryRecord`):
 * the record id codec, the column list of its queries and the mapping to and from
 * Kernel Memory's `MemoryRecord`.
 */
module AzureCosmosDbMemoryRecord {
  import opened Wrappers
  import Json
  import Utf8
  import Base64

  const IdField := "id"
  const FileField := "file"
  const TagsField := "tags"
  const VectorField := "embedding"
  const PayloadField := "payload"

  /** Kernel Memory's `TagCollection`: each tag name holds a list of nullable values. */
  type TagCollection = map<string, seq<Option<string>>>

  /** An embedding vector; its components are carried, never computed with. */
  type Embedding = seq<real>

  /** The value of an `Embedding` nobody assigned. */
  const DefaultEmbedding: Embedding := []

  /** Kernel Memory's `MemoryRecord`. */
  datatype MemoryRecord = MemoryRecord(
    id: string,
    payload: map<string, Json.Value>,
    tags: TagCollection,
    vector: Embedding)

  /** The Cosmos DB document: the id is stored encoded, the file id is the partition key. */
  datatype CosmosRecord = CosmosRecord(
    id: string,
    file: string,
    payload: map<string, Json.Value>,
    tags: TagCollection,
    vector: Embedding)

  datatype PartitionKey = PartitionKey(value: string)

  /** The Cosmos partition key of a document. */
  function GetPartitionKey(r: CosmosRecord): PartitionKey {
    PartitionKey(r.file)
  }

  // ----- Record id codec -----

  /** `string.Replace(char, char)`. */
  function Replace(s: string, from: char, to: char): (r: string)
    ensures |r| == |s|
    ensures forall k :: 0 <= k < |s| ==> r[k] == if s[k] == from then to else s[k]
  {
    if s == [] then [] else [if s[0] == from then to else s[0]] + Replace(s[1..], from, to)
  }

  lemma ReplaceNone(s: string, from: char, to: char)
    requires forall k :: 0 <= k < |s| ==> s[k] != from
    ensures Replace(s, from, to) == s
  {
  }

  /** The id as stored: Base64 of its UTF-8 bytes with every `=` turned into `_`. */
  function EncodeId(recordId: string): string {
    Replace(Base64.Encode(Utf8.Encode(recordId)), Base64.Pad, '_')
  }

  /**
   * The id as Kernel Memory knows it: `_` turned back into `=`, Base64-decoded and read
   * as UTF-8. Text that is not Base64 then raises a `FormatException`.
   */
  function DecodeId(encodedId: string): Result<string> {
    var bytes :- Base64.Decode(Replace(encodedId, '_', Base64.Pad));
    Ok(Utf8.Decode(bytes))
  }

  /** Decoding an encoded id gives the id back, for every well-formed string. */
  lemma DecodeEncodeId(recordId: string)
    ensures DecodeId(EncodeId(recordId)) == Ok(recordId)
  {
    var bytes := Utf8.Encode(recordId);
    var b := Base64.Encode(bytes);
    Base64.EncodeShape(bytes);
    var e := Replace(b, Base64.Pad, '_');
    var back := Replace(e, '_', Base64.Pad);
    forall k | 0 <= k < |b| ensures back[k] == b[k] {
      assert b[k] == Base64.Pad || Base64.IsAlphabetChar(b[k]);
    }
    assert back == b;
    Base64.DecodeEncode(bytes);
    Utf8.DecodeEncode(recordId);
  }

  /**
   * An encoded id holds no `=`; its length is four times the number of three-byte groups
   * of the UTF-8 bytes, rounded up; and `_` stands exactly in the last one or two places
   * that Base64 pads, so only when the byte count is not a multiple of three.
   */
  lemma EncodeIdShape(recordId: string)
    ensures var n := |Utf8.Encode(recordId)|; var e := EncodeId(recordId);
      && |e| == 4 * ((n + 2) / 3)
      && |e| % 4 == 0
      && (forall k :: 0 <= k < |e| ==> e[k] != '=')
      && (forall k :: 0 <= k < |e| ==> (e[k] == '_' <==> k >= |e| - Base64.PadCount(n)))
      && (forall k :: 0 <= k < |e| && e[k] == '_' ==> k >= |e| - 2 && n % 3 != 0)
  {
    var bytes := Utf8.Encode(recordId);
    var b := Base64.Encode(bytes);
    Base64.EncodeShape(bytes);
    Base64.EncodeLengthMultipleOfFour(bytes);
    forall k | 0 <= k < |b| ensures b[k] != '_' {
      assert b[k] == Base64.Pad || Base64.IsAlphabetChar(b[k]);
    }
  }

  /** An id holding a character that is neither Base64, `_`, `=` nor whitespace does not decode. */
  lemma DecodeIdRejectsForeignChar(encodedId: string, k: nat)
    requires k < |encodedId|
    requires var c := encodedId[k];
      !Base64.IsAlphabetChar(c) && c != '_' && c != Base64.Pad && !Base64.IsWhitespace(c)
    ensures DecodeId(encodedId).Err?
  {
    var r := Replace(encodedId, '_', Base64.Pad);
    assert r[k] == encodedId[k];
    Base64.DecodeRejectsForeignChar(r, k);
  }

  // ----- Column list -----

  /** The document's fields, in the order queries select them. */
  const FieldNames: seq<string> := [IdField, FileField, TagsField, VectorField, PayloadField]

  /** A column name, prefixed by `alias.` unless the alias is null or empty. */
  function Qualify(alias: Option<string>, name: string): string {
    if alias == None || alias == Some("") then name else alias.value + "." + name
  }

  /** `GetColumns` over a list of field names (the embedding skipped, unless asked for). */
  function ColumnsOf(names: seq<string>, alias: Option<string>, withEmbeddings: bool): seq<string> {
    if names == [] then []
    else
      var first := if !withEmbeddings && names[0] == VectorField then [] else [Qualify(alias, names[0])];
      first + ColumnsOf(names[1..], alias, withEmbeddings)
  }

  /** `GetColumns`. */
  function GetColumns(alias: Option<string>, withEmbeddings: bool): seq<string> {
    ColumnsOf(FieldNames, alias, withEmbeddings)
  }

  /** `string.Join(',', …)`. */
  function Join(sep: char, items: seq<string>): string {
    if items == [] then ""
    else if |items| == 1 then items[0]
    else items[0] + [sep] + Join(sep, items[1..])
  }

  /** `Columns`. */
  function Columns(alias: Option<string>, withEmbeddings: bool): string {
    Join(',', GetColumns(alias, withEmbeddings))
  }

  /**
   * The columns are id, file, tags, the embedding when asked for, and payload, in this
   * order: nothing else is ever dropped or added.
   */
  lemma GetColumnsOrder(alias: Option<string>, withEmbeddings: bool)
    ensures GetColumns(alias, withEmbeddings) ==
      [Qualify(alias, IdField), Qualify(alias, FileField), Qualify(alias, TagsField)]
      + (if withEmbeddings then [Qualify(alias, VectorField)] else [])
      + [Qualify(alias, PayloadField)]
  {
    var n, a, w := FieldNames, alias, withEmbeddings;
    assert n[4..][1..] == [];
    assert ColumnsOf(n[4..], a, w) == [Qualify(a, PayloadField)];
    assert n[3..][1..] == n[4..];
    assert ColumnsOf(n[3..], a, w) == (if w then [Qualify(a, VectorField)] else []) + ColumnsOf(n[4..], a, w);
    assert n[2..][1..] == n[3..];
    assert ColumnsOf(n[2..], a, w) == [Qualify(a, TagsField)] + ColumnsOf(n[3..], a, w);
    assert n[1..][1..] == n[2..];
    assert ColumnsOf(n[1..], a, w) == [Qualify(a, FileField)] + ColumnsOf(n[2..], a, w);
    assert ColumnsOf(n, a, w) == [Qualify(a, IdField)] + ColumnsOf(n[1..], a, w);
  }

  /**
   * With a non-empty alias every column is `alias.` followed by the bare column name;
   * with a null or empty alias the names are bare, and always names of document fields.
   */
  lemma GetColumnsQualified(alias: Option<string>, withEmbeddings: bool)
    ensures var cols, bare := GetColumns(alias, withEmbeddings), GetColumns(None, withEmbeddings);
      && |cols| == |bare|
      && (forall k :: 0 <= k < |bare| ==> bare[k] in FieldNames)
      && (forall k :: 0 <= k < |cols| ==>
            cols[k] == if alias == None || alias == Some("") then bare[k] else alias.value + "." + bare[k])
  {
    GetColumnsOrder(alias, withEmbeddings);
    GetColumnsOrder(None, withEmbeddings);
  }

  /** The embedding column is present if and only if it is asked for. */
  lemma GetColumnsEmbedding(alias: Option<string>, withEmbeddings: bool)
    ensures Qualify(alias, VectorField) in GetColumns(alias, withEmbeddings) <==> withEmbeddings
    ensures |GetColumns(alias, withEmbeddings)| == if withEmbeddings then 5 else 4
  {
    GetColumnsOrder(alias, withEmbeddings);
    var v := Qualify(alias, VectorField);
    if !withEmbeddings {
      QualifyInjective(alias, VectorField, IdField);
      QualifyInjective(alias, VectorField, FileField);
      QualifyInjective(alias, VectorField, TagsField);
      QualifyInjective(alias, VectorField, PayloadField);
    }
  }

  lemma QualifyInjective(alias: Option<string>, a: string, b: string)
    requires a != b
    ensures Qualify(alias, a) != Qualify(alias, b)
  {
    if !(alias == None || alias == Some("")) {
      var p := alias.value + ".";
      assert Qualify(alias, a) == p + a && Qualify(alias, b) == p + b;
      assert (p + a)[|p|..] == a && (p + b)[|p|..] == b;
    }
  }

  /** `Columns` is the column names joined by `,` with no spaces. */
  lemma ColumnsText(alias: Option<string>, withEmbeddings: bool)
    ensures Columns(alias, withEmbeddings) ==
      Qualify(alias, IdField) + "," + Qualify(alias, FileField) + "," + Qualify(alias, TagsField)
      + (if withEmbeddings then "," + Qualify(alias, VectorField) else "")
      + "," + Qualify(alias, PayloadField)
  {
    GetColumnsOrder(alias, withEmbeddings);
    var i, f, t, v, p := Qualify(alias, IdField), Qualify(alias, FileField), Qualify(alias, TagsField),
      Qualify(alias, VectorField), Qualify(alias, PayloadField);
    if withEmbeddings {
      assert GetColumns(alias, withEmbeddings) == [i, f, t] + [v] + [p] == [i, f, t, v, p];
      JoinFive(',', i, f, t, v, p);
    } else {
      assert GetColumns(alias, withEmbeddings) == [i, f, t] + [] + [p] == [i, f, t, p];
      JoinFour(',', i, f, t, p);
      assert i + "," + f + "," + t + "" + "," + p == i + [','] + f + [','] + t + [','] + p;
    }
  }

  lemma JoinFour(sep: char, a: string, b: string, c: string, d: string)
    ensures Join(sep, [a, b, c, d]) == a + [sep] + b + [sep] + c + [sep] + d
  {
    var xs := [a, b, c, d];
    assert xs[1..] == [b, c, d] && xs[1..][1..] == [c, d] && xs[1..][1..][1..] == [d];
    assert Join(sep, [c, d]) == c + [sep] + d;
  }

  lemma JoinFive(sep: char, a: string, b: string, c: string, d: string, e: string)
    ensures Join(sep, [a, b, c, d, e]) == a + [sep] + b + [sep] + c + [sep] + d + [sep] + e
  {
    var xs := [a, b, c, d, e];
    assert xs[1..] == [b, c, d, e];
    JoinFour(sep, b, c, d, e);
  }

  // ----- Mapping to and from MemoryRecord -----

  /**
   * `ToMemoryRecord`: the id decoded and payload and tags carried over; the vector carried
   * only when asked for. A stored id that is not Base64 raises a `FormatException`.
   */
  function ToMemoryRecord(r: CosmosRecord, withEmbedding: bool): Result<MemoryRecord> {
    var id :- DecodeId(r.id);
    Ok(MemoryRecord(id, r.payload, r.tags, if withEmbedding then r.vector else DefaultEmbedding))
  }

  /**
   * `FromMemoryRecord`. `fileId` is `record.GetFileId()`, a Kernel Memory helper that is
   * not part of this model.
   */
  function FromMemoryRecord(record: MemoryRecord, fileId: string): CosmosRecord {
    CosmosRecord(EncodeId(record.id), fileId, record.payload, record.tags, record.vector)
  }

  /** Storing a record and reading it back with its embedding gives the same record. */
  lemma ToFromMemoryRecord(record: MemoryRecord, fileId: string)
    ensures ToMemoryRecord(FromMemoryRecord(record, fileId), true) == Ok(record)
  {
    DecodeEncodeId(record.id);
  }

  /** Reading back without the embedding keeps id, payload and tags and leaves the vector unset. */
  lemma ToFromMemoryRecordWithoutEmbedding(record: MemoryRecord, fileId: string)
    ensures ToMemoryRecord(FromMemoryRecord(record, fileId), false) ==
      Ok(MemoryRecord(record.id, record.payload, record.tags, DefaultEmbedding))
  {
    DecodeEncodeId(record.id);
  }

  /** A stored record is partitioned by the file it came from. */
  lemma PartitionKeyIsFile(record: MemoryRecord, fileId: string)
    ensures GetPartitionKey(FromMemoryRecord(record, fileId)) == PartitionKey(fileId)
    ensures GetPartitionKey(FromMemoryRecord(record, fileId)).value == FromMemoryRecord(record, fileId).file
  {
  }
}
