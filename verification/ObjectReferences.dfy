/** Object references and their wire format (src/dr_store/content_addressing.py). */
module ObjectReferences {
  import opened Wrappers

  const CONTENT_HASH_LENGTH := 64
  const OBJECT_REFERENCE_PREFIX := "dr-store-object:v1"

  predicate IsHexDigit(c: char) {
    '0' <= c <= '9' || 'a' <= c <= 'f'
  }

  predicate IsContentHash(value: string) {
    |value| == CONTENT_HASH_LENGTH && forall c | c in value :: IsHexDigit(c)
  }

  predicate IsReferenceSchema(schema: string) {
    schema != "" && '\0' !in schema
  }

  /** Any text is a binding key unless it holds NUL. */
  predicate IsBindingKey(key: string) {
    '\0' !in key
  }

  datatype ObjectReference = ObjectReference(schema: string, contentHash: string) {
    predicate Valid() {
      IsReferenceSchema(schema) && IsContentHash(contentHash)
    }
  }

  datatype ReferenceError = UnsupportedPrefix | Malformed | InvalidReference

  function Format(reference: ObjectReference): string {
    OBJECT_REFERENCE_PREFIX + ":" + reference.schema + ":" + reference.contentHash
  }

  /** The position of the last colon, which is where the schema ends. */
  function LastColon(s: string): (at: Option<nat>)
    ensures at.Some? ==> at.value < |s| && s[at.value] == ':' && forall k | at.value < k < |s| :: s[k] != ':'
    ensures at.None? ==> forall k | 0 <= k < |s| :: s[k] != ':'
  {
    if s == "" then None
    else if s[|s| - 1] == ':' then Some(|s| - 1)
    else LastColon(s[..|s| - 1])
  }

  function ParseRemainder(remainder: string): Result<ObjectReference, ReferenceError> {
    match LastColon(remainder)
    case None => Failure(Malformed)
    case Some(at) =>
      var reference := ObjectReference(remainder[..at], remainder[at + 1..]);
      if reference.schema == "" || reference.contentHash == "" then Failure(Malformed)
      else if !reference.Valid() then Failure(InvalidReference)
      else Success(reference)
  }

  function Parse(value: string): Result<ObjectReference, ReferenceError> {
    var prefix := OBJECT_REFERENCE_PREFIX + ":";
    if !(prefix <= value) then Failure(UnsupportedPrefix) else ParseRemainder(value[|prefix|..])
  }

  /** The last colon is the one before the hash, since no hash contains a colon. */
  lemma RemainderSplits(reference: ObjectReference)
    requires reference.Valid()
    ensures ParseRemainder(reference.schema + ":" + reference.contentHash) == Success(reference)
  {
    var schema, contentHash := reference.schema, reference.contentHash;
    var remainder := schema + ":" + contentHash;
    assert remainder[|schema|] == ':';
    forall k | |schema| < k < |remainder| ensures remainder[k] != ':' {
      assert remainder[k] == contentHash[k - |schema| - 1] && IsHexDigit(remainder[k]);
    }
    assert LastColon(remainder) == Some(|schema|);
    assert remainder[..|schema|] == schema && remainder[|schema| + 1..] == contentHash;
  }

  /** Parsing a formatted reference returns it, whatever colons the schema has. */
  lemma ParseInvertsFormat(reference: ObjectReference)
    requires reference.Valid()
    ensures Parse(Format(reference)) == Success(reference)
  {
    var prefix := OBJECT_REFERENCE_PREFIX + ":";
    var remainder := reference.schema + ":" + reference.contentHash;
    assert Format(reference) == prefix + remainder;
    RemainderSplits(reference);
  }

  /** An accepted wire string is the formatting of a valid reference, character for character. */
  lemma {:induction false} FormatInvertsParse(value: string)
    requires Parse(value).Success?
    ensures Parse(value).value.Valid()
    ensures Format(Parse(value).value) == value
  {
    var prefix := OBJECT_REFERENCE_PREFIX + ":";
    var remainder := value[|prefix|..];
    var at := LastColon(remainder).value;
    assert value == prefix + remainder;
    assert remainder == remainder[..at] + ":" + remainder[at + 1..];
  }

  /** Exactly the formattings of valid references are accepted. */
  lemma AcceptedExactlyWhenFormatted(value: string)
    ensures Parse(value).Success? <==> exists r: ObjectReference :: r.Valid() && Format(r) == value
  {
    if Parse(value).Success? {
      FormatInvertsParse(value);
    }
    forall r: ObjectReference | r.Valid() && Format(r) == value
      ensures Parse(value).Success?
    {
      ParseInvertsFormat(r);
    }
  }
}
