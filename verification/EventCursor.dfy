/**
 The text of an event cursor, `v1.<session>.<connection>.<snapshot>.<after>.<query fingerprint>`:
 bound to the process and the Runtime connection that issued it and to the query it was issued for.
 */
module EventCursor {
  import opened Basics
  import opened Wrappers
  import opened Text
  import opened Numerals

  const SHA256_PREFIX: string := "sha256:"

  /** The Runtime's cursor. `fingerprint` is `sha256:` and 64 digits; the hash itself is not modelled. */
  datatype Cursor = Cursor(snapshot: nat, after: nat, fingerprint: string)

  datatype Binding = Binding(session: nat, generation: nat)

  predicate CanonicalSha256(text: string) {
    SHA256_PREFIX <= text && |text| == |SHA256_PREFIX| + 64 && forall i :: |SHA256_PREFIX| <= i < |text| ==> LowerHex(text[i])
  }

  /** `RuntimeEventQueryCursor::validate`. */
  predicate Valid(cursor: Cursor) {
    && cursor.snapshot != 0 && cursor.after != 0 && cursor.after <= cursor.snapshot
    && CanonicalSha256(cursor.fingerprint)
  }

  predicate U64(n: nat) { n <= U64_MAX }

  function StripPrefix(text: string, prefix: string): Option<string> {
    if prefix <= text then Some(text[|prefix|..]) else None
  }

  function Parts(binding: Binding, cursor: Cursor, digest: string): seq<string> {
    [ "v1", Pad(Print(binding.session, Hexadecimal), 16), Print(binding.generation, Decimal),
      Print(cursor.snapshot, Decimal), Print(cursor.after, Decimal), digest ]
  }

  /** `CursorBinding::encode`: refused only for a fingerprint without its prefix. */
  function Encode(binding: Binding, cursor: Cursor): Option<string> {
    match StripPrefix(cursor.fingerprint, SHA256_PREFIX)
    case None => None
    case Some(digest) => Some(Join(Parts(binding, cursor, digest), '.'))
  }

  /** `CursorBinding::decode` for the query whose fingerprint is `wanted`. */
  function Decode(binding: Binding, token: string, wanted: string): (cursor: Option<Cursor>)
    ensures cursor.Some? ==> Valid(cursor.value) && cursor.value.fingerprint == wanted
    ensures cursor.Some? ==> U64(cursor.value.snapshot) && U64(cursor.value.after)
  {
    DecodeParts(binding, Split(token, '.'), wanted)
  }

  function DecodeParts(binding: Binding, parts: seq<string>, wanted: string): (cursor: Option<Cursor>)
    ensures cursor.Some? ==> |parts| == 6 && parts[0] == "v1"
    ensures cursor.Some? ==> Valid(cursor.value) && cursor.value.fingerprint == wanted == SHA256_PREFIX + parts[5]
    ensures cursor.Some? ==> U64(cursor.value.snapshot) && U64(cursor.value.after)
  {
    if |parts| != 6 || parts[0] != "v1" then None
    else if Parse(parts[1], Hexadecimal) != Some(binding.session) || Parse(parts[2], Decimal) != Some(binding.generation) then None
    else
      match (Parse(parts[3], Decimal), Parse(parts[4], Decimal))
      case (Some(snapshot), Some(after)) =>
        var cursor := Cursor(snapshot, after, SHA256_PREFIX + parts[5]);
        if Valid(cursor) && cursor.fingerprint == wanted then Some(cursor) else None
      case _ => None
  }

  lemma NumbersReadBack(binding: Binding, cursor: Cursor)
    requires U64(binding.session) && U64(binding.generation) && U64(cursor.snapshot) && U64(cursor.after)
    ensures Parse(Pad(Print(binding.session, Hexadecimal), 16), Hexadecimal) == Some(binding.session)
    ensures Parse(Print(binding.generation, Decimal), Decimal) == Some(binding.generation)
    ensures Parse(Print(cursor.snapshot, Decimal), Decimal) == Some(cursor.snapshot)
    ensures Parse(Print(cursor.after, Decimal), Decimal) == Some(cursor.after)
  {
    ParseOfPrint(binding.session, Hexadecimal);
    ParseOfPadded(Print(binding.session, Hexadecimal), 16, Hexadecimal);
    ParseOfPrint(binding.generation, Decimal);
    ParseOfPrint(cursor.snapshot, Decimal);
    ParseOfPrint(cursor.after, Decimal);
  }

  function DigestOf(cursor: Cursor): (digest: string)
    requires Valid(cursor)
    ensures '.' !in digest && SHA256_PREFIX + digest == cursor.fingerprint
    ensures StripPrefix(cursor.fingerprint, SHA256_PREFIX) == Some(digest)
  {
    cursor.fingerprint[|SHA256_PREFIX|..]
  }

  lemma PartsReadBack(issuer: Binding, reader: Binding, cursor: Cursor, wanted: string)
    requires U64(issuer.session) && U64(issuer.generation) && U64(cursor.snapshot) && U64(cursor.after) && Valid(cursor)
    ensures var parts := Parts(issuer, cursor, DigestOf(cursor));
            var answer := if reader == issuer && wanted == cursor.fingerprint then Some(cursor) else None;
            DecodeParts(reader, parts, wanted) == answer == DecodeParts(reader, parts[4 := "+" + parts[4]], wanted)
  {
    NumbersReadBack(issuer, cursor);
    ParseOfPrint(cursor.after, Decimal);
  }

  /**
   A cursor reads back exactly where it was issued: the same process, the same connection and a query
   with its fingerprint give the cursor; any other session, generation or query refuses it.
   */
  lemma DecodeOfEncode(issuer: Binding, reader: Binding, cursor: Cursor, wanted: string)
    requires U64(issuer.session) && U64(issuer.generation) && U64(cursor.snapshot) && U64(cursor.after) && Valid(cursor)
    ensures Encode(issuer, cursor).Some?
    ensures Decode(reader, Encode(issuer, cursor).value, wanted)
         == if reader == issuer && wanted == cursor.fingerprint then Some(cursor) else None
  {
    SplitOfJoin(Parts(issuer, cursor, DigestOf(cursor)), '.');
    PartsReadBack(issuer, reader, cursor, wanted);
  }

  /** Two cursors with the same token are the same cursor, issued by the same binding. */
  lemma EncodeIsInjective(b: Binding, c: Cursor, b': Binding, c': Cursor)
    requires U64(b.session) && U64(b.generation) && U64(c.snapshot) && U64(c.after) && Valid(c)
    requires U64(b'.session) && U64(b'.generation) && U64(c'.snapshot) && U64(c'.after) && Valid(c')
    requires Encode(b, c) == Encode(b', c')
    ensures b == b' && c == c'
  {
    DecodeOfEncode(b, b', c, c'.fingerprint);
    DecodeOfEncode(b', b', c', c'.fingerprint);
  }

  predicate NumbersAsPrinted(binding: Binding, cursor: Cursor, parts: seq<string>)
    requires |parts| == 6
  {
    && parts[1] == Pad(Print(binding.session, Hexadecimal), 16)
    && parts[2] == Print(binding.generation, Decimal)
    && parts[3] == Print(cursor.snapshot, Decimal)
    && parts[4] == Print(cursor.after, Decimal)
  }

  /** An accepted token is the encoding of its cursor exactly when each of its numbers is written as it is printed. */
  lemma AcceptedIsEncodingIff(binding: Binding, token: string, wanted: string)
    requires Decode(binding, token, wanted).Some?
    ensures var cursor := Decode(binding, token, wanted).value;
            Encode(binding, cursor) == Some(token) <==> NumbersAsPrinted(binding, cursor, Split(token, '.'))
  {
    var cursor := Decode(binding, token, wanted).value;
    var parts := Split(token, '.');
    var digest := parts[5];
    assert cursor.fingerprint == SHA256_PREFIX + digest;
    assert StripPrefix(cursor.fingerprint, SHA256_PREFIX) == Some(digest);
    JoinOfSplit(token, '.');
    var printed := Parts(binding, cursor, digest);
    if NumbersAsPrinted(binding, cursor, parts) {
      assert parts == printed;
    } else if Encode(binding, cursor) == Some(token) {
      SplitOfJoin(printed, '.');
      assert false;
    }
  }

  /** So an event cursor has other spellings: a `+` before a number is accepted too. */
  lemma PlusIsAccepted(binding: Binding, cursor: Cursor)
    requires U64(binding.session) && U64(binding.generation) && U64(cursor.snapshot) && U64(cursor.after) && Valid(cursor)
    ensures var parts := Parts(binding, cursor, DigestOf(cursor));
            var spelled := Join(parts[4 := "+" + parts[4]], '.');
            Decode(binding, spelled, cursor.fingerprint) == Some(cursor) && Some(spelled) != Encode(binding, cursor)
  {
    var parts := Parts(binding, cursor, DigestOf(cursor));
    var spelled := parts[4 := "+" + parts[4]];
    SplitOfJoin(spelled, '.');
    SplitOfJoin(parts, '.');
    PartsReadBack(binding, binding, cursor, cursor.fingerprint);
    assert |spelled[4]| > |parts[4]|;
  }
}
