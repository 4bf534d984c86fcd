/**
 A response whose JSON text has been read: status, sections and fields
 (decoder.go). Reading the text itself is a parameter of the decoder.
 */
module Envelope {
  import opened Wrappers
  import opened Text

  /** A field is a string, an object with a "values" list of strings, or anything else. */
  datatype Field = Text(text: string) | Values(items: seq<string>) | OtherField

  type Section = map<string, Field>

  /** A section that is not an object reads as if it were absent. */
  datatype RawSection = Object(fields: Section) | NotObject

  datatype ResultShape = NoOutput | Malformed | Output(sections: map<string, RawSection>)

  datatype Document = Document(statusCode: Option<int>, result: ResultShape)

  datatype DecodeError = BadText | BadStatus(code: int) | BadResult | MissingOutput

  /** strconv.ParseUint into a Go int: 63 value bits. */
  const INT_LIMIT: nat := 0x8000_0000_0000_0000
  const UINT64_LIMIT: nat := 0x1_0000_0000_0000_0000

  /** The status is judged first, so a failing mlxlink is reported by its own status. */
  function DecodeOutput(doc: Option<Document>): Result<map<string, RawSection>, DecodeError> {
    match doc
    case None => Err(BadText)
    case Some(Document(status, result)) =>
      if status.Some? && status.value != 0 then Err(BadStatus(status.value))
      else match result
        case Malformed => Err(BadResult)
        case NoOutput => Err(MissingOutput)
        case Output(sections) => Ok(sections)
  }

  function SectionOf(output: map<string, RawSection>, name: string): Option<Section> {
    if name in output && output[name].Object? then Some(output[name].fields) else None
  }

  function RawValues(sec: Section, key: string): Option<seq<string>> {
    if key in sec && sec[key].Values? then Some(sec[key].items) else None
  }

  function StringField(sec: Option<Section>, key: string): string {
    if sec.Some? && key in sec.value && sec.value[key].Text?
    then TrimSpace(sec.value[key].text) else ""
  }

  function ValuesField(sec: Option<Section>, key: string): seq<string> {
    if sec.Some? && key in sec.value && sec.value[key].Values?
    then sec.value[key].items else []
  }

  /** A key "<prefix><number>": the number it names, if it names one. */
  function NumberedKey(key: string, prefix: string): Option<nat>
    requires prefix <= key
  {
    ParseUint(key[|prefix|..], INT_LIMIT)
  }

  /** The key is the prefix and the number in decimal notation, after any leading zeros. */
  ghost predicate Numbers(key: string, prefix: string, n: nat) {
    n < 0x8000_0000_0000_0000 && exists k: nat :: key == prefix + (Zeros(k) + Decimal(n))
  }

  lemma NumberedKeyExactly(key: string, prefix: string, n: nat)
    ensures prefix <= key && NumberedKey(key, prefix) == Some(n) <==> Numbers(key, prefix, n)
    ensures prefix == "" ==> (ParseUint(key, INT_LIMIT) == Some(n) <==> Numbers(key, prefix, n))
  {
    hide Decimal, ParseUint;
    if prefix <= key {
      var rest := key[|prefix|..];
      assert key == prefix + rest;
      UintExactly(rest, INT_LIMIT, n);
    }
    if k: nat :| key == prefix + (Zeros(k) + Decimal(n)) {
      assert key[|prefix|..] == Zeros(k) + Decimal(n);
    }
  }

  lemma NumberedKeyPrints(prefix: string, n: nat)
    requires n < INT_LIMIT
    ensures prefix <= prefix + Decimal(n)
    ensures NumberedKey(prefix + Decimal(n), prefix) == Some(n)
  {
    PrintThenParse(n, INT_LIMIT);
    assert (prefix + Decimal(n))[|prefix|..] == Decimal(n);
  }
}
