/**
 The compiled vocabulary (crates/rgctl-analysis/build.rs): normalise the token list, hash a row of weights for every
 token, write the RBVK blob. Its reader is `from_bytes` of crates/rgctl-analysis/src/semantic_vocab.rs.
 */
module VocabMatrix {
  import opened Wrappers
  import opened LittleEndian

  type Token = Bytes

  const MAGIC: Bytes := [0x52, 0x42, 0x56, 0x4B]
  const DIMENSIONS := 256
  const MAX_TOKENS := 40000
  const TWO_64 := 0x1_0000_0000_0000_0000

  // ---------------------------------------------------------------- normalisation

  /** The length of the white-space character at the front of UTF-8 text, or zero. */
  function SpaceAtFront(s: Bytes): (n: nat)
    ensures n <= |s|
  {
    if |s| >= 1 && (9 <= s[0] <= 13 || s[0] == 0x20) then 1
    else if |s| >= 2 && s[0] == 0xC2 && (s[1] == 0x85 || s[1] == 0xA0) then 2
    else if |s| >= 3 && WideSpace(s[0], s[1], s[2]) then 3
    else 0
  }

  function SpaceAtBack(s: Bytes): (n: nat)
    ensures n <= |s|
  {
    var k := |s|;
    if k >= 1 && (9 <= s[k - 1] <= 13 || s[k - 1] == 0x20) then 1
    else if k >= 2 && s[k - 2] == 0xC2 && (s[k - 1] == 0x85 || s[k - 1] == 0xA0) then 2
    else if k >= 3 && WideSpace(s[k - 3], s[k - 2], s[k - 1]) then 3
    else 0
  }

  /** The white-space characters of three bytes: U+1680, U+2000 to U+200A, U+2028, U+2029, U+202F, U+205F, U+3000. */
  predicate WideSpace(a: Byte, b: Byte, c: Byte) {
    || (a == 0xE1 && b == 0x9A && c == 0x80)
    || (a == 0xE2 && b == 0x80 && (0x80 <= c <= 0x8A || c == 0xA8 || c == 0xA9 || c == 0xAF))
    || (a == 0xE2 && b == 0x81 && c == 0x9F)
    || (a == 0xE3 && b == 0x80 && c == 0x80)
  }

  function Trim(s: Bytes): Bytes
    decreases |s|
  {
    if SpaceAtFront(s) > 0 then Trim(s[SpaceAtFront(s)..])
    else if SpaceAtBack(s) > 0 then Trim(s[..|s| - SpaceAtBack(s)])
    else s
  }

  function LowerByte(b: Byte): Byte {
    if 0x41 <= b <= 0x5A then b + 32 else b
  }

  function Lower(s: Bytes): (r: Bytes)
    ensures |r| == |s| && forall i | 0 <= i < |s| :: r[i] == LowerByte(s[i])
  {
    seq(|s|, i requires 0 <= i < |s| => LowerByte(s[i]))
  }

  /** The token of one line, if it has one: trimmed, not a comment, in lower case, 3 to 48 bytes long. */
  function TokenOf(line: Bytes): (t: Option<Token>)
    ensures t.Some? ==> 3 <= |t.value| <= 48 && Lower(t.value) == t.value
  {
    var trimmed := Trim(line);
    if trimmed == [] || trimmed[0] == 0x23 then None
    else
      var lower := Lower(trimmed);
      if 3 <= |lower| <= 48 then Some(lower) else None
  }

  /** The pieces of a text between line feeds; trimming takes care of carriage returns. */
  function Lines(text: Bytes): (lines: seq<Bytes>)
    ensures |lines| > 0
  {
    if text == [] then [[]]
    else
      var rest := Lines(text[1..]);
      if text[0] == 10 then [[]] + rest else [[text[0]] + rest[0]] + rest[1..]
  }

  /** The order of texts: bytewise, a prefix first. */
  predicate Less(a: Bytes, b: Bytes) {
    if b == [] then false
    else if a == [] then true
    else a[0] < b[0] || (a[0] == b[0] && Less(a[1..], b[1..]))
  }

  lemma {:induction false} LessTotal(a: Bytes, b: Bytes)
    ensures Less(a, b) || a == b || Less(b, a)
    ensures Less(a, b) ==> !Less(b, a) && a != b
  {
    if a != [] && b != [] {
      LessTotal(a[1..], b[1..]);
      assert a == [a[0]] + a[1..];
      assert b == [b[0]] + b[1..];
    }
  }

  lemma {:induction false} LessChain(a: Bytes, b: Bytes, c: Bytes)
    requires Less(a, b) && Less(b, c)
    ensures Less(a, c)
  {
    if a != [] && a[0] == b[0] == c[0] {
      LessChain(a[1..], b[1..], c[1..]);
    }
  }

  ghost predicate Ascending(tokens: seq<Token>) {
    forall i, j | 0 <= i < j < |tokens| :: Less(tokens[i], tokens[j]) || tokens[i] == tokens[j]
  }

  ghost predicate StrictlyAscending(tokens: seq<Token>) {
    forall i, j | 0 <= i < j < |tokens| :: Less(tokens[i], tokens[j])
  }

  function InsertToken(sorted: seq<Token>, t: Token): seq<Token> {
    if sorted == [] || !Less(t, sorted[|sorted| - 1]) then sorted + [t]
    else InsertToken(sorted[..|sorted| - 1], t) + [sorted[|sorted| - 1]]
  }

  /** `sort_unstable`. */
  function SortTokens(tokens: seq<Token>): seq<Token> {
    if tokens == [] then [] else InsertToken(SortTokens(tokens[..|tokens| - 1]), tokens[|tokens| - 1])
  }

  /** `t` may stand behind all of `tokens`. */
  ghost predicate Behind(tokens: seq<Token>, t: Token) {
    forall i | 0 <= i < |tokens| :: Less(tokens[i], t) || tokens[i] == t
  }

  lemma {:induction false} BehindNext(tokens: seq<Token>, t: Token, u: Token)
    requires Behind(tokens, t) && (Less(t, u) || t == u)
    ensures Behind(tokens, u)
  {
    forall i | 0 <= i < |tokens| ensures Less(tokens[i], u) || tokens[i] == u {
      if Less(tokens[i], t) && Less(t, u) {
        LessChain(tokens[i], t, u);
      }
    }
  }

  lemma AppendAscending(tokens: seq<Token>, t: Token)
    requires Ascending(tokens) && Behind(tokens, t)
    ensures Ascending(tokens + [t])
  {
  }

  lemma {:induction false} InsertAscending(sorted: seq<Token>, t: Token, bound: Token)
    requires Ascending(sorted)
    ensures Ascending(InsertToken(sorted, t))
    ensures Behind(sorted, bound) && (Less(t, bound) || t == bound) ==> Behind(InsertToken(sorted, t), bound)
    ensures forall x :: x in InsertToken(sorted, t) <==> x in sorted || x == t
  {
    if sorted != [] {
      var rest, last := sorted[..|sorted| - 1], sorted[|sorted| - 1];
      assert sorted == rest + [last];
      LessTotal(t, last);
      assert Behind(rest, last);
      if Less(t, last) {
        InsertAscending(rest, t, last);
        InsertAscending(rest, t, bound);
        AppendAscending(InsertToken(rest, t), last);
      } else {
        BehindNext(rest, last, t);
        assert Behind(sorted, t);
        AppendAscending(sorted, t);
      }
    }
  }

  lemma {:induction false} SortAscending(tokens: seq<Token>)
    ensures Ascending(SortTokens(tokens))
    ensures forall x :: x in SortTokens(tokens) <==> x in tokens
  {
    if tokens != [] {
      var rest, last := tokens[..|tokens| - 1], tokens[|tokens| - 1];
      SortAscending(rest);
      InsertAscending(SortTokens(rest), last, last);
      assert tokens == rest + [last];
    }
  }

  /** Every text is a candidate of some line. */
  ghost predicate Candidate(text: Bytes, t: Token) {
    exists line <- Lines(text) :: TokenOf(line) == Some(t)
  }

  method CollectTokens(text: Bytes) returns (tokens: seq<Token>)
    ensures forall t :: t in tokens <==> Candidate(text, t)
  {
    var lines := Lines(text);
    tokens := [];
    for i := 0 to |lines|
      invariant forall t :: t in tokens <==> exists line <- lines[..i] :: TokenOf(line) == Some(t)
    {
      assert lines[..i + 1] == lines[..i] + [lines[i]];
      var t := TokenOf(lines[i]);
      if t.Some? {
        tokens := tokens + [t.value];
      }
    }
    assert lines[..|lines|] == lines;
  }

  /** `dedup`: drop each element that equals its predecessor. */
  method Dedup(tokens: seq<Token>) returns (r: seq<Token>)
    requires Ascending(tokens)
    ensures StrictlyAscending(r) && forall t :: t in r <==> t in tokens
  {
    r := [];
    for i := 0 to |tokens|
      invariant StrictlyAscending(r) && forall t :: t in r <==> t in tokens[..i]
      invariant r != [] ==> i > 0 && r[|r| - 1] == tokens[i - 1]
      invariant i > 0 ==> r != []
    {
      assert tokens[..i + 1] == tokens[..i] + [tokens[i]];
      if r == [] || r[|r| - 1] != tokens[i] {
        StrictAppend(r, tokens[i]);
        r := r + [tokens[i]];
      }
    }
    assert tokens[..|tokens|] == tokens;
  }

  lemma {:induction false} StrictAppend(r: seq<Token>, t: Token)
    requires StrictlyAscending(r) && (r != [] ==> Less(r[|r| - 1], t))
    ensures StrictlyAscending(r + [t])
  {
    if r != [] {
      var last := r[|r| - 1];
      forall i | 0 <= i < |r| ensures Less(r[i], t) {
        if i < |r| - 1 {
          LessChain(r[i], last, t);
        }
      }
    }
  }

  /** What the vocabulary of a text is: its candidates in strictly increasing order, cut off after the first 40,000. */
  ghost predicate IsVocabulary(text: Bytes, tokens: seq<Token>) {
    && StrictlyAscending(tokens) && |tokens| <= MAX_TOKENS
    && (forall t <- tokens :: Candidate(text, t))
    && (forall t | Candidate(text, t) && t !in tokens ::
          |tokens| == MAX_TOKENS && forall i | 0 <= i < |tokens| :: Less(tokens[i], t))
  }

  method NormaliseTokens(text: Bytes) returns (tokens: seq<Token>)
    ensures IsVocabulary(text, tokens)
  {
    var collected := CollectTokens(text);
    SortAscending(collected);
    tokens := Dedup(SortTokens(collected));
    if |tokens| > MAX_TOKENS {
      ghost var all := tokens;
      tokens := tokens[..MAX_TOKENS];
      forall t | t in all && t !in tokens ensures forall i | 0 <= i < |tokens| :: Less(tokens[i], t) {
        var k :| 0 <= k < |all| && all[k] == t;
        assert forall i | 0 <= i < |tokens| :: tokens[i] == all[i] && tokens[i] in tokens;
      }
    }
  }

  /** The vocabulary is determined by the text: there is only one such list. */
  lemma VocabularyUnique(text: Bytes, a: seq<Token>, b: seq<Token>)
    requires IsVocabulary(text, a) && IsVocabulary(text, b)
    ensures a == b
  {
    NotShorter(text, a, b);
    NotShorter(text, b, a);
    SameVocabulary(text, a, b, |a|);
    assert a[..|a|] == a && b[..|a|] == b;
  }

  lemma NotShorter(text: Bytes, a: seq<Token>, b: seq<Token>)
    requires IsVocabulary(text, a) && IsVocabulary(text, b)
    ensures |a| >= |b|
  {
    if |a| < |b| {
      SameVocabulary(text, a, b, |a|);
      assert b[|a|] in b;
      forall k | 0 <= k < |a| ensures a[k] != b[|a|] {
        assert a[..|a|][k] == b[..|a|][k];
        LessTotal(b[k], b[|a|]);
      }
    }
  }

  /** Two such lists agree as far as both go. */
  lemma {:induction false} SameVocabulary(text: Bytes, a: seq<Token>, b: seq<Token>, i: nat)
    requires IsVocabulary(text, a) && IsVocabulary(text, b)
    requires i <= |a| && i <= |b|
    ensures a[..i] == b[..i]
    decreases i
  {
    if i > 0 {
      SameVocabulary(text, a, b, i - 1);
      var n := i - 1;
      assert a[n] in a && b[n] in b;
      LessTotal(a[n], b[n]);
      if Less(a[n], b[n]) {
        NotSkipped(text, b, a, n);
      } else if Less(b[n], a[n]) {
        NotSkipped(text, a, b, n);
      }
      assert a[..i] == a[..n] + [a[n]];
      assert b[..i] == b[..n] + [b[n]];
    }
  }

  lemma NotSkipped(text: Bytes, a: seq<Token>, b: seq<Token>, n: nat)
    requires IsVocabulary(text, a) && IsVocabulary(text, b)
    requires n < |a| && n < |b| && a[..n] == b[..n]
    ensures !Less(b[n], a[n])
  {
    if Less(b[n], a[n]) {
      assert b[n] in b;
      if b[n] in a {
        var k :| 0 <= k < |a| && a[k] == b[n];
        LessTotal(a[n], a[k]);
        assert k < n;
        assert a[..n][k] == b[..n][k];
        LessTotal(b[k], b[n]);
      } else {
        LessTotal(b[n], a[n]);
      }
    }
  }

  // ---------------------------------------------------------------- weights

  /** The low `bits` bits of the exclusive or. */
  function Xor(a: nat, b: nat, bits: nat): nat {
    if bits == 0 then 0 else (a + b) % 2 + 2 * Xor(a / 2, b / 2, bits - 1)
  }

  /** FNV-1a over 64 bits. */
  function Fnv1a(bytes: Bytes): nat {
    if bytes == [] then 0xcbf29ce484222325
    else Xor(Fnv1a(bytes[..|bytes| - 1]), bytes[|bytes| - 1], 64) * 0x100000001b3 % TWO_64
  }

  method HashBytes(bytes: Bytes) returns (hash: nat)
    ensures hash == Fnv1a(bytes)
  {
    hash := 0xcbf29ce484222325;
    for i := 0 to |bytes|
      invariant hash == Fnv1a(bytes[..i])
    {
      assert bytes[..i + 1][..i] == bytes[..i];
      hash := Xor(hash, bytes[i], 64);
      hash := hash * 0x100000001b3 % TWO_64;
    }
    assert bytes[..|bytes|] == bytes;
  }

  function Mixed(base: nat, d: nat): nat {
    (base + d * 0x9E3779B97F4A7C15 % TWO_64) % TWO_64 * 0x100000001b3 % TWO_64
  }

  /** The range of `i8`. */
  type Signed = w: int | -128 <= w < 128

  function Weight(base: nat, d: nat): (w: Signed)
    ensures -125 <= w <= 125
  {
    Mixed(base, d) % 251 - 125
  }

  /** `as i8 as u8`. */
  function SignedToByte(w: Signed): Byte {
    if w < 0 then w + 256 else w
  }

  /** `as i8` of a byte. */
  function ByteToSigned(b: Byte): Signed {
    if b < 128 then b else b - 256
  }

  function Row(base: nat, n: nat): (row: seq<Signed>)
    ensures |row| == n && forall d | 0 <= d < n :: row[d] == Weight(base, d)
  {
    seq(n, d requires 0 <= d < n => Weight(base, d))
  }

  /** All weights, token by token. */
  function Weights(tokens: seq<Token>): (weights: seq<Signed>)
    ensures |weights| == |tokens| * DIMENSIONS
    ensures forall i | 0 <= i < |weights| :: -125 <= weights[i] <= 125
  {
    if tokens == [] then []
    else Weights(tokens[..|tokens| - 1]) + Row(Fnv1a(tokens[|tokens| - 1]), DIMENSIONS)
  }

  /** Weights are stored row by row: a token's weights stand together, at its position times the dimensions. */
  lemma {:induction false} RowMajor(tokens: seq<Token>, i: nat, d: nat)
    requires i < |tokens| && d < DIMENSIONS
    ensures Weights(tokens)[i * DIMENSIONS + d] == Weight(Fnv1a(tokens[i]), d)
  {
    var n := |tokens| - 1;
    if i < n {
      RowMajor(tokens[..n], i, d);
    }
  }

  // ---------------------------------------------------------------- the blob

  function EncodeToken(t: Token): Bytes {
    ToLe(|t|, 2) + t
  }

  function EncodeTokens(tokens: seq<Token>): Bytes {
    if tokens == [] then [] else EncodeTokens(tokens[..|tokens| - 1]) + EncodeToken(tokens[|tokens| - 1])
  }

  function EncodeWeights(weights: seq<Signed>): (bytes: Bytes)
    ensures |bytes| == |weights| && forall i | 0 <= i < |weights| :: bytes[i] == SignedToByte(weights[i])
  {
    seq(|weights|, i requires 0 <= i < |weights| => SignedToByte(weights[i]))
  }

  function Header(n: nat): (bytes: Bytes)
    ensures |bytes| == 16
  {
    MAGIC + ToLe(1, 4) + ToLe(n, 4) + ToLe(DIMENSIONS, 4)
  }

  function WeightBytes(tokens: seq<Token>): (bytes: Bytes)
    ensures |bytes| == |tokens| * DIMENSIONS
    ensures forall i | 0 <= i < |bytes| :: bytes[i] == SignedToByte(Weights(tokens)[i])
  {
    EncodeWeights(Weights(tokens))
  }

  function Blob(tokens: seq<Token>): Bytes {
    Header(|tokens|) + EncodeTokens(tokens) + WeightBytes(tokens)
  }

  /**
   The writer: header, tokens, then one row of weights after the other. Where the build script panics this is an error:
   on an empty vocabulary, and on a token too long for its length field.
   */
  method WriteBlob(tokens: seq<Token>) returns (r: Result<Bytes>)
    ensures r.Ok? <==> tokens != [] && AllShort(tokens)
    ensures r.Ok? ==> r.value == Blob(tokens)
  {
    if tokens == [] {
      return Err("vocab_tokens.txt produced empty vocabulary");
    }
    var head := WriteTokens(Header(|tokens|), tokens);
    if head.Err? {
      return head;
    }
    var out := WriteWeights(head.value, tokens);
    r := Ok(out);
  }

  /** Every length fits into sixteen bits. */
  predicate AllShort(tokens: seq<Token>) {
    forall i | 0 <= i < |tokens| :: |tokens[i]| < 0x1_0000
  }

  method WriteTokens(before: Bytes, tokens: seq<Token>) returns (r: Result<Bytes>)
    ensures r.Ok? <==> AllShort(tokens)
    ensures r.Ok? ==> r.value == before + EncodeTokens(tokens)
  {
    var out := before;
    for i := 0 to |tokens|
      invariant AllShort(tokens[..i])
      invariant out == before + EncodeTokens(tokens[..i])
    {
      assert tokens[..i + 1][..i] == tokens[..i];
      if |tokens[i]| >= 0x1_0000 {
        return Err("token len fits u16");
      }
      out := out + ToLe(|tokens[i]|, 2);
      out := out + tokens[i];
    }
    assert tokens[..|tokens|] == tokens;
    r := Ok(out);
  }

  method WriteWeights(before: Bytes, tokens: seq<Token>) returns (out: Bytes)
    ensures out == before + WeightBytes(tokens)
  {
    out := before;
    for i := 0 to |tokens|
      invariant out == before + WeightBytes(tokens[..i])
    {
      assert tokens[..i + 1][..i] == tokens[..i];
      var base := HashBytes(tokens[i]);
      var row := WriteRow(base);
      RowsAppend(tokens[..i + 1]);
      out := out + row;
    }
    assert tokens[..|tokens|] == tokens;
  }

  method WriteRow(base: nat) returns (row: Bytes)
    ensures row == EncodeWeights(Row(base, DIMENSIONS))
  {
    row := [];
    for d := 0 to DIMENSIONS
      invariant row == EncodeWeights(Row(base, d))
    {
      row := row + [SignedToByte(Weight(base, d))];
    }
  }

  lemma RowsAppend(tokens: seq<Token>)
    requires tokens != []
    ensures WeightBytes(tokens)
         == WeightBytes(tokens[..|tokens| - 1]) + EncodeWeights(Row(Fnv1a(tokens[|tokens| - 1]), DIMENSIONS))
  {
  }

  function TokensSize(tokens: seq<Token>): nat {
    if tokens == [] then 0 else TokensSize(tokens[..|tokens| - 1]) + 2 + |tokens[|tokens| - 1]|
  }

  lemma {:induction false} BlobSize(tokens: seq<Token>)
    ensures |EncodeTokens(tokens)| == TokensSize(tokens)
    ensures |Blob(tokens)| == 16 + TokensSize(tokens) + 256 * |tokens|
  {
    if tokens != [] {
      BlobSize(tokens[..|tokens| - 1]);
    }
  }

  // ---------------------------------------------------------------- reading it back

  datatype Accumulator = Accumulator(tokenToIdx: map<Token, nat>, weights: seq<Signed>, dimensions: nat)

  /** Read `n` tokens from `offset`: the table so far, and where the weights begin. */
  function ReadTokens(bytes: Bytes, offset: nat, idx: nat, n: nat, table: map<Token, nat>):
    Result<(map<Token, nat>, nat)>
    requires idx <= n
    decreases n - idx
  {
    if idx == n then Ok((table, offset))
    else if offset + 2 > |bytes| then Err("vocab matrix truncated while reading tokens")
    else
      var len := FromLe(bytes[offset..offset + 2]);
      if len == 0 || offset + 2 + len > |bytes| then Err("vocab matrix: invalid token length")
      else
        var token := Lower(bytes[offset + 2..offset + 2 + len]);
        ReadTokens(bytes, offset + 2 + len, idx + 1, n, table[token := idx])
  }

  function DecodeWeights(bytes: Bytes): (weights: seq<Signed>)
    ensures |weights| == |bytes| && forall i | 0 <= i < |bytes| :: weights[i] == ByteToSigned(bytes[i])
  {
    seq(|bytes|, i requires 0 <= i < |bytes| => ByteToSigned(bytes[i]))
  }

  /** `TokenSpaceAccumulator::from_bytes`, for blobs whose tokens are UTF-8. */
  function FromBytes(bytes: Bytes): Result<Accumulator> {
    if |bytes| < 16 then Err("vocab matrix truncated: header too short")
    else if bytes[0..4] != MAGIC then Err("vocab matrix: bad magic (expected RBVK)")
    else if FromLe(bytes[4..8]) != 1 then Err("vocab matrix: unsupported version")
    else
      var n, dimensions := FromLe(bytes[8..12]), FromLe(bytes[12..16]);
      if dimensions == 0 || dimensions % 8 != 0 then Err("vocab matrix: invalid dimensions")
      else if n == 0 then Err("vocab matrix: empty token table")
      else
        match ReadTokens(bytes, 16, 0, n, map[])
        case Err(message) => Err(message)
        case Ok((table, offset)) =>
          if offset + n * dimensions != |bytes| || offset > |bytes| then Err("vocab matrix: trailing size mismatch")
          else Ok(Accumulator(table, DecodeWeights(bytes[offset..]), dimensions))
  }

  /** The table that a reader should get: each token with its position. */
  function Positions(tokens: seq<Token>): map<Token, nat> {
    if tokens == [] then map[] else Positions(tokens[..|tokens| - 1])[tokens[|tokens| - 1] := |tokens| - 1]
  }

  /** Tokens as the normalisation leaves them. */
  ghost predicate Writable(tokens: seq<Token>) {
    && 0 < |tokens| < 0x1_0000_0000
    && forall i | 0 <= i < |tokens| :: 0 < |tokens[i]| < 0x1_0000 && Lower(tokens[i]) == tokens[i]
  }

  /** A token record stands at this offset. */
  ghost predicate TokenAt(bytes: Bytes, offset: nat, t: Token) {
    && offset + 2 + |t| <= |bytes|
    && FromLe(bytes[offset..offset + 2]) == |t|
    && bytes[offset + 2..offset + 2 + |t|] == t
  }

  lemma ReadOneToken(before: Bytes, t: Token, behind: Bytes)
    requires 0 < |t| < 0x1_0000
    ensures TokenAt(before + EncodeToken(t) + behind, |before|, t)
  {
    var bytes, offset := before + EncodeToken(t) + behind, |before|;
    Pow256Values();
    LeRoundTrip(|t|, 2);
    assert bytes[offset..offset + 2] == ToLe(|t|, 2);
    assert bytes[offset + 2..offset + 2 + |t|] == t;
  }

  function OffsetOf(tokens: seq<Token>, i: nat): nat
    requires i <= |tokens|
  {
    16 + |EncodeTokens(tokens[..i])|
  }

  lemma {:induction false} TokenStands(header: Bytes, tokens: seq<Token>, behind: Bytes, i: nat)
    requires |header| == 16 && Writable(tokens) && i < |tokens|
    ensures Laid(header + EncodeTokens(tokens) + behind, tokens, i)
  {
    assert tokens[..i + 1][..i] == tokens[..i];
    var rest := TokensFrom(tokens, i + 1);
    var before := header + EncodeTokens(tokens[..i]);
    assert header + EncodeTokens(tokens) + behind == before + EncodeToken(tokens[i]) + (rest + behind);
    ReadOneToken(before, tokens[i], rest + behind);
  }

  lemma ReadStep(bytes: Bytes, offset: nat, idx: nat, n: nat, table: map<Token, nat>, t: Token)
    requires TokenAt(bytes, offset, t) && t != [] && Lower(t) == t && idx < n
    ensures ReadTokens(bytes, offset, idx, n, table) == ReadTokens(bytes, offset + 2 + |t|, idx + 1, n, table[t := idx])
  {
  }

  /** Token `k` stands where it should, and its successor right behind it. */
  ghost predicate Laid(bytes: Bytes, tokens: seq<Token>, k: nat)
    requires k < |tokens|
  {
    TokenAt(bytes, OffsetOf(tokens, k), tokens[k]) && OffsetOf(tokens, k + 1) == OffsetOf(tokens, k) + 2 + |tokens[k]|
  }

  /** Reading from behind the first `i` tokens reaches the weights with the whole table. */
  lemma {:induction false} ReadAllTokens(bytes: Bytes, tokens: seq<Token>, i: nat)
    requires Writable(tokens) && i <= |tokens| && forall k | 0 <= k < |tokens| :: Laid(bytes, tokens, k)
    ensures ReadTokens(bytes, OffsetOf(tokens, i), i, |tokens|, Positions(tokens[..i]))
         == Ok((Positions(tokens), OffsetOf(tokens, |tokens|)))
    decreases |tokens| - i
  {
    if i == |tokens| {
      assert tokens[..i] == tokens;
    } else {
      assert Laid(bytes, tokens, i);
      ReadAllTokens(bytes, tokens, i + 1);
      PositionsNext(tokens, i);
      ReadStep(bytes, OffsetOf(tokens, i), i, |tokens|, Positions(tokens[..i]), tokens[i]);
    }
  }

  lemma PositionsNext(tokens: seq<Token>, i: nat)
    requires i < |tokens|
    ensures Positions(tokens[..i + 1]) == Positions(tokens[..i])[tokens[i] := i]
  {
    assert tokens[..i + 1][..i] == tokens[..i];
  }

  /** The encoding of the tokens from position `i` on. */
  lemma {:induction false} TokensFrom(tokens: seq<Token>, i: nat) returns (rest: Bytes)
    requires i <= |tokens|
    ensures EncodeTokens(tokens) == EncodeTokens(tokens[..i]) + rest
    decreases |tokens|
  {
    if i == |tokens| {
      assert tokens[..i] == tokens;
      rest := [];
    } else {
      var n := |tokens| - 1;
      rest := TokensFrom(tokens[..n], i);
      assert tokens[..n][..i] == tokens[..i];
      rest := rest + EncodeToken(tokens[n]);
    }
  }

  lemma SignedRoundTrip(w: Signed)
    ensures ByteToSigned(SignedToByte(w)) == w
  {
  }

  lemma FourFields(a: Bytes, b: Bytes, c: Bytes, d: Bytes, body: Bytes)
    requires |a| == |b| == |c| == |d| == 4
    ensures var bytes := a + b + c + d + body;
            bytes[0..4] == a && bytes[4..8] == b && bytes[8..12] == c && bytes[12..16] == d
  {
  }

  ghost predicate HeaderSays(bytes: Bytes, n: nat) {
    && |bytes| >= 16
    && bytes[0..4] == MAGIC && FromLe(bytes[4..8]) == 1
    && FromLe(bytes[8..12]) == n && FromLe(bytes[12..16]) == DIMENSIONS
  }

  lemma HeaderReads(n: nat, rest: Bytes, bytes: Bytes)
    requires n < 0x1_0000_0000 && bytes == Header(n) + rest
    ensures HeaderSays(bytes, n)
  {
    Pow256Values();
    LeRoundTrip(1, 4);
    LeRoundTrip(n, 4);
    LeRoundTrip(DIMENSIONS, 4);
    FourFields(MAGIC, ToLe(1, 4), ToLe(n, 4), ToLe(DIMENSIONS, 4), rest);
  }

  /** The reader recovers from the blob every token with its position, and every weight. */
  lemma {:induction false} BlobRoundTrip(tokens: seq<Token>)
    requires Writable(tokens)
    ensures FromBytes(Blob(tokens)) == Ok(Accumulator(Positions(tokens), Weights(tokens), DIMENSIONS))
  {
    var header, rest := Header(|tokens|), EncodeTokens(tokens) + WeightBytes(tokens);
    assert Blob(tokens) == header + rest;
    HeaderReads(|tokens|, rest, Blob(tokens));
    PartsRoundTrip(tokens, header, WeightBytes(tokens), Blob(tokens));
    WeightsReadBack(tokens);
  }

  lemma {:induction false} WeightsReadBack(tokens: seq<Token>)
    ensures DecodeWeights(WeightBytes(tokens)) == Weights(tokens)
  {
  }

  lemma {:induction false} PartsRoundTrip(tokens: seq<Token>, header: Bytes, weights: Bytes, bytes: Bytes)
    requires Writable(tokens) && |header| == 16 && |weights| == |tokens| * DIMENSIONS
    requires bytes == header + EncodeTokens(tokens) + weights && HeaderSays(bytes, |tokens|)
    ensures FromBytes(bytes) == Ok(Accumulator(Positions(tokens), DecodeWeights(weights), DIMENSIONS))
  {
    TokensRead(tokens, header, weights, bytes);
    var offset := 16 + |EncodeTokens(tokens)|;
    assert bytes[offset..] == weights;
    Assembled(bytes, |tokens|, Positions(tokens), offset, weights);
  }

  lemma {:induction false} TokensRead(tokens: seq<Token>, header: Bytes, weights: Bytes, bytes: Bytes)
    requires Writable(tokens) && |header| == 16 && bytes == header + EncodeTokens(tokens) + weights
    ensures ReadTokens(bytes, 16, 0, |tokens|, map[]) == Ok((Positions(tokens), 16 + |EncodeTokens(tokens)|))
  {
    forall k | 0 <= k < |tokens| {
      TokenStands(header, tokens, weights, k);
    }
    ReadAllTokens(bytes, tokens, 0);
    assert tokens[..0] == [] && tokens[..|tokens|] == tokens;
  }

  lemma {:induction false} Assembled(bytes: Bytes, n: nat, table: map<Token, nat>, offset: nat, weights: Bytes)
    requires 16 <= offset <= |bytes| && n > 0 && |weights| == n * DIMENSIONS && bytes[offset..] == weights
    requires HeaderSays(bytes, n)
    requires ReadTokens(bytes, 16, 0, n, map[]) == Ok((table, offset))
    ensures FromBytes(bytes) == Ok(Accumulator(table, DecodeWeights(weights), DIMENSIONS))
  {
  }

  /** In a strictly increasing vocabulary each token is found under its own position. */
  lemma {:induction false} PositionsFound(tokens: seq<Token>, i: nat)
    requires StrictlyAscending(tokens) && i < |tokens|
    ensures tokens[i] in Positions(tokens) && Positions(tokens)[tokens[i]] == i
  {
    var n := |tokens| - 1;
    if i < n {
      PositionsFound(tokens[..n], i);
      LessTotal(tokens[i], tokens[n]);
    }
  }

  /** From text to reader: what the build writes for a text is read back as that text's vocabulary. */
  lemma {:induction false} BuildIsReadable(text: Bytes, tokens: seq<Token>)
    requires IsVocabulary(text, tokens) && tokens != []
    ensures FromBytes(Blob(tokens)) == Ok(Accumulator(Positions(tokens), Weights(tokens), DIMENSIONS))
    ensures |Blob(tokens)| == 16 + TokensSize(tokens) + 256 * |tokens|
    ensures forall t <- tokens :: 3 <= |t| <= 48
  {
    forall i | 0 <= i < |tokens| ensures 3 <= |tokens[i]| <= 48 && Lower(tokens[i]) == tokens[i] {
      assert Candidate(text, tokens[i]);
    }
    BlobRoundTrip(tokens);
    BlobSize(tokens);
  }

  // ---------------------------------------------------------------- what becomes a token

  predicate Visible(b: Byte) {
    0x20 < b < 0x7F
  }

  /** A word of 3 to 48 bytes that is no comment is a token, in lower case. */
  lemma WordIsToken(line: Bytes)
    requires 3 <= |line| <= 48 && Visible(line[0]) && Visible(line[|line| - 1]) && line[0] != 0x23
    ensures TokenOf(line) == Some(Lower(line))
  {
    assert SpaceAtFront(line) == 0 && SpaceAtBack(line) == 0;
  }

  lemma LowerLetters(b: Byte)
    ensures 0x41 <= b <= 0x5A ==> LowerByte(b) == b - 0x41 + 0x61
    ensures !(0x41 <= b <= 0x5A) ==> LowerByte(b) == b
  {
  }

  lemma {:induction false} TrimKeepsFirst(line: Bytes)
    requires line != [] && Visible(line[0])
    ensures Trim(line) != [] && Trim(line)[0] == line[0]
    decreases |line|
  {
    if SpaceAtBack(line) > 0 {
      TrimKeepsFirst(line[..|line| - SpaceAtBack(line)]);
    }
  }

  /** A comment is no token, and no token begins like a comment. */
  lemma CommentIsNoToken(line: Bytes)
    ensures line != [] && line[0] == 0x23 ==> TokenOf(line) == None
    ensures TokenOf(line).Some? ==> TokenOf(line).value[0] != 0x23
  {
    if line != [] && line[0] == 0x23 {
      TrimKeepsFirst(line);
    }
  }

  /** Blanks before a line do not matter. */
  lemma BlankBefore(blank: Byte, line: Bytes)
    requires blank == 0x20 || 9 <= blank <= 13
    ensures TokenOf([blank] + line) == TokenOf(line)
  {
    assert ([blank] + line)[1..] == line;
  }

  lemma {:induction false} LinesHead(c: Byte, rest: Bytes)
    ensures Lines([c] + rest) ==
              if c == 10 then [[]] + Lines(rest) else [[c] + Lines(rest)[0]] + Lines(rest)[1..]
  {
    assert ([c] + rest)[1..] == rest;
  }

  lemma {:induction false} LinesSplit(a: Bytes, b: Bytes)
    ensures Lines(a + ([10] + b)) == Lines(a) + Lines(b)
  {
    if a == [] {
      assert a + ([10] + b) == [10] + b;
      LinesHead(10, b);
    } else {
      var c, rest := a[0], a[1..];
      assert a == [c] + rest && a + ([10] + b) == [c] + (rest + ([10] + b));
      LinesSplit(rest, b);
      LinesHead(c, rest);
      LinesHead(c, rest + ([10] + b));
    }
  }

  lemma {:induction false} OneLine(line: Bytes)
    requires 10 !in line
    ensures Lines(line) == [line]
  {
    if line != [] {
      OneLine(line[1..]);
      assert line == [line[0]] + line[1..];
    }
  }

  /** So the words that stand alone on a line of the text are its candidates, in lower case. */
  lemma WordIsCandidate(before: Bytes, word: Bytes, after: Bytes)
    requires 3 <= |word| <= 48 && Visible(word[0]) && Visible(word[|word| - 1]) && word[0] != 0x23 && 10 !in word
    ensures Candidate(before + ([10] + (word + ([10] + after))), Lower(word))
  {
    LinesSplit(before, word + ([10] + after));
    LinesSplit(word, after);
    OneLine(word);
    WordIsToken(word);
    var lines := Lines(before) + ([word] + Lines(after));
    assert lines[|Lines(before)|] == word;
  }

  /** They agree up to position `i` and differ there. */
  ghost predicate LowerAt(a: Bytes, b: Bytes, i: nat) {
    i < |a| && i < |b| && a[..i] == b[..i] && a[i] < b[i]
  }

  lemma LowerAtNext(a: Bytes, b: Bytes, i: nat)
    requires a != [] && b != [] && a[0] == b[0]
    ensures LowerAt(a[1..], b[1..], i) <==> LowerAt(a, b, i + 1)
  {
    if i < |a| - 1 && i < |b| - 1 {
      assert a[..i + 1] == [a[0]] + a[1..][..i] && b[..i + 1] == [b[0]] + b[1..][..i];
      assert a[..i + 1][1..] == a[1..][..i] && b[..i + 1][1..] == b[1..][..i];
    }
  }

  lemma SameHead(a: Bytes, b: Bytes, i: nat)
    requires 0 < i <= |a| && i <= |b| && a[..i] == b[..i]
    ensures a[0] == b[0]
  {
    assert a[0] == a[..i][0];
  }

  /** Bytewise, and a proper prefix first. */
  lemma {:induction false} LessExactly(a: Bytes, b: Bytes)
    ensures Less(a, b) <==> (a <= b && a != b) || exists i: nat :: LowerAt(a, b, i)
  {
    if a == [] || b == [] {
    } else if a[0] == b[0] {
      LessExactly(a[1..], b[1..]);
      assert a == [a[0]] + a[1..] && b == [b[0]] + b[1..];
      if i: nat :| LowerAt(a[1..], b[1..], i) {
        LowerAtNext(a, b, i);
      }
      if i: nat :| LowerAt(a, b, i) {
        assert i > 0;
        LowerAtNext(a, b, i - 1);
      }
    } else {
      assert LowerAt(a, b, 0) <==> a[0] < b[0];
      if i: nat :| LowerAt(a, b, i) {
        if i > 0 {
          SameHead(a, b, i);
        }
      }
    }
  }

  /** A candidate is left out only if 40,000 others were kept. */
  lemma CutOff(text: Bytes, tokens: seq<Token>, t: Token)
    requires IsVocabulary(text, tokens) && Candidate(text, t) && t !in tokens
    ensures |tokens| == 40_000
  {
  }

  // ---------------------------------------------------------------- fixed points of hash and weights

  function Two(k: nat): nat {
    if k == 0 then 1 else 2 * Two(k - 1)
  }

  lemma {:induction false} XorNothing(a: nat, bits: nat)
    requires a < Two(bits)
    ensures Xor(a, 0, bits) == a
  {
    if bits > 0 {
      XorNothing(a / 2, bits - 1);
    }
  }

  /** A published value of 64-bit FNV-1a. */
  lemma HashOfA()
    ensures Fnv1a([]) == 0xcbf29ce484222325 && Fnv1a([0x61]) == 0xaf63dc4c8601ec8c
  {
    XorWithA();
    assert [0x61][..0] == [];
    assert Fnv1a([0x61]) == Xor(Fnv1a([]), 0x61, 64) * 0x100000001b3 % TWO_64;
    Wraps(0xcbf29ce484222344 * 0x100000001b3, 875948729822);
  }

  lemma XorNext(a: nat, b: nat, bits: nat)
    requires bits > 0
    ensures Xor(a, b, bits) == (a + b) % 2 + 2 * Xor(a / 2, b / 2, bits - 1)
  {
  }

  lemma {:induction false} TwoAdd(j: nat, k: nat)
    ensures Two(j + k) == Two(j) * Two(k)
  {
    if k > 0 {
      TwoAdd(j, k - 1);
    }
  }

  /** The byte 0x61 has seven bits; above them nothing changes. */
  lemma XorWithA()
    ensures Xor(0xcbf29ce484222325, 0x61, 64) == 0xcbf29ce484222344
  {
    assert Two(4) == 16 && Two(1) == 2;
    TwoAdd(4, 4);
    TwoAdd(8, 8);
    TwoAdd(16, 16);
    TwoAdd(32, 16);
    TwoAdd(48, 8);
    TwoAdd(56, 1);
    XorNothing(0x197e539c9084446, 57);
    XorNext(0x32fca739210888c, 1, 58);
    assert Xor(0x32fca739210888c, 1, 58) == 0x32fca739210888d;
    XorNext(0x65f94e724211119, 3, 59);
    assert Xor(0x65f94e724211119, 3, 59) == 0x65f94e72421111a;
    XorNext(0xcbf29ce48422232, 6, 60);
    assert Xor(0xcbf29ce48422232, 6, 60) == 0xcbf29ce48422234;
    XorNext(0x197e539c90844464, 12, 61);
    assert Xor(0x197e539c90844464, 12, 61) == 0x197e539c90844468;
    XorNext(0x32fca739210888c9, 24, 62);
    assert Xor(0x32fca739210888c9, 24, 62) == 0x32fca739210888d1;
    XorNext(0x65f94e7242111192, 48, 63);
    assert Xor(0x65f94e7242111192, 48, 63) == 0x65f94e72421111a2;
    XorNext(0xcbf29ce484222325, 97, 64);
    assert Xor(0xcbf29ce484222325, 97, 64) == 0xcbf29ce484222344;
  }

  lemma WeightsOfA()
    ensures Weight(0xaf63dc4c8601ec8c, 0) == 61 && Weight(0xaf63dc4c8601ec8c, 1) == 79
    ensures Weight(0xaf63dc4c8601ec8c, 255) == 46
  {
    MixedIs(0xaf63dc4c8601ec8c, 0, 0, 0, 753294658992, 620337896427418084);
    MixedIs(0xaf63dc4c8601ec8c, 1, 0, 1, 333318588041, 3124316419812346259);
    MixedIs(0xaf63dc4c8601ec8c, 255, 157, 1, 312024502988, 11945562853459347765);
    assert 620337896427418084 == 2471465722818398 * 251 + 186;
    assert 3124316419812346259 == 12447475776144805 * 251 + 204;
    assert 11945562853459347765 == 47591883878324094 * 251 + 171;
  }

  /** The mixed hash, given how often each step wraps round. */
  lemma MixedIs(base: nat, d: nat, p: nat, q: nat, r: nat, mixed: nat)
    requires var u := base + d * 0x9E3779B97F4A7C15 - p * TWO_64 - q * TWO_64;
             && 0 <= d * 0x9E3779B97F4A7C15 - p * TWO_64 < TWO_64 && 0 <= u < TWO_64
             && mixed == u * 0x100000001b3 - r * TWO_64 && mixed < TWO_64
    ensures Mixed(base, d) == mixed
  {
    Wraps(d * 0x9E3779B97F4A7C15, p);
    var a := d * 0x9E3779B97F4A7C15 - p * TWO_64;
    Wraps(base + a, q);
    var u := base + a - q * TWO_64;
    Wraps(u * 0x100000001b3, r);
  }

  lemma Wraps(n: nat, k: int)
    requires 0 <= n - k * TWO_64 < TWO_64
    ensures n % TWO_64 == n - k * TWO_64
  {
  }

  /** Each dimension moves the mixed hash on by one odd number, so a token's 256 mixed hashes are all different. */
  lemma MixedDiffer(base: nat, c: nat, d: nat)
    requires c <= d < 256 && Mixed(base, c) == Mixed(base, d)
    ensures c == d
  {
    var k := MixedStep(base, c, d);
    var e, inverse := d - c, 0xaccb085c5354df4f;
    assert 0x22bfeb334b90d7af * inverse == 1 + 0x1774815880141c1b * TWO_64;
    assert e * 0x22bfeb334b90d7af * inverse == k * inverse * TWO_64;
    assert e == (k * inverse - e * 0x1774815880141c1b) * TWO_64;
  }

  lemma MixedStep(base: nat, c: nat, d: nat) returns (k: int)
    ensures Mixed(base, d) - Mixed(base, c) == (d - c) * 0x22bfeb334b90d7af - k * 0x1_0000_0000_0000_0000
  {
    var kc := MixedExactly(base, c);
    var kd := MixedExactly(base, d);
    k := kd - kc;
  }

  lemma MixedExactly(base: nat, d: nat) returns (k: int)
    ensures Mixed(base, d) == base * 0x100000001b3 + d * 0x22bfeb334b90d7af - k * 0x1_0000_0000_0000_0000
  {
    var step, prime := 0x9E3779B97F4A7C15, 0x100000001b3;
    var a := d * step % TWO_64;
    var p := d * step / TWO_64;
    var b := (base + a) % TWO_64;
    var q := (base + a) / TWO_64;
    var r := b * prime / TWO_64;
    assert a == d * step - p * TWO_64;
    assert b == base + a - q * TWO_64;
    assert Mixed(base, d) == b * prime - r * TWO_64;
    var s := step * prime / TWO_64;
    assert step * prime == 0x22bfeb334b90d7af + s * TWO_64;
    k := p * prime + q * prime + r - d * s;
  }

  // ---------------------------------------------------------------- the layout, byte by byte

  lemma HeaderConstants()
    ensures MAGIC == [0x52, 0x42, 0x56, 0x4B] && ToLe(1, 4) == [1, 0, 0, 0] && ToLe(256, 4) == [0, 1, 0, 0]
  {
  }

  lemma FieldsOf(a: Bytes, b: Bytes, c: Bytes, d: Bytes, rest: Bytes, bytes: Bytes, j: nat)
    requires |a| == |b| == |c| == |d| == 4 && bytes == a + b + c + d + rest && j < 4
    ensures |bytes| >= 16 && bytes[0..4] == a && bytes[4..8] == b && bytes[8 + j] == c[j] && bytes[12..16] == d
  {
    FourFields(a, b, c, d, rest);
    assert bytes[8..12][j] == c[j];
  }

  /** The header: four letters, version 1, the number of tokens, and 256 dimensions. */
  lemma {:induction false} BlobHeader(tokens: seq<Token>, j: nat)
    requires j < 4
    ensures var bytes := Blob(tokens);
            && |bytes| >= 16 && bytes[0..4] == [0x52, 0x42, 0x56, 0x4B] && bytes[4..8] == [1, 0, 0, 0]
            && bytes[8 + j] == |tokens| / Pow256(j) % 256 && bytes[12..16] == [0, 1, 0, 0]
  {
    var rest := EncodeTokens(tokens) + WeightBytes(tokens);
    assert Blob(tokens) == Header(|tokens|) + rest;
    FieldsOf(MAGIC, ToLe(1, 4), ToLe(|tokens|, 4), ToLe(256, 4), rest, Blob(tokens), j);
    HeaderConstants();
    ByteOf(|tokens|, 4, j);
  }

  /** A token stands behind the header and all earlier tokens: two bytes of length, low byte first, and its text. */
  lemma BlobToken(tokens: seq<Token>, i: nat)
    requires i < |tokens|
    ensures var bytes, at, t := Blob(tokens), 16 + TokensSize(tokens[..i]), tokens[i];
            && at + 2 + |t| <= |bytes| && bytes[at] == |t| % 256 && bytes[at + 1] == |t| / 256 % 256
            && bytes[at + 2..at + 2 + |t|] == t
  {
    var t, header, weights := tokens[i], Header(|tokens|), WeightBytes(tokens);
    assert tokens[..i + 1][..i] == tokens[..i];
    var rest := TokensFrom(tokens, i + 1);
    BlobSize(tokens[..i]);
    var before := header + EncodeTokens(tokens[..i]);
    assert Blob(tokens) == before + ToLe(|t|, 2) + t + (rest + weights);
    TwoBytes(|t|);
    assert Blob(tokens)[|before|] == ToLe(|t|, 2)[0] && Blob(tokens)[|before| + 1] == ToLe(|t|, 2)[1];
  }

  lemma {:induction false} TwoBytes(n: nat)
    ensures ToLe(n, 2)[0] == n % 256 && ToLe(n, 2)[1] == n / 256 % 256
  {
  }

  /** Behind all tokens stand the weights, in two's complement, a row of 256 for each token. */
  lemma {:induction false} BlobWeight(tokens: seq<Token>, i: nat, d: nat)
    requires i < |tokens| && d < 256
    ensures var bytes, at, w := Blob(tokens), 16 + TokensSize(tokens) + 256 * i + d, Weight(Fnv1a(tokens[i]), d);
            at < |bytes| && bytes[at] == if w >= 0 then w else 256 + w
  {
    BlobSize(tokens);
    RowMajor(tokens, i, d);
    var before := Header(|tokens|) + EncodeTokens(tokens);
    assert Blob(tokens) == before + WeightBytes(tokens);
    assert Blob(tokens)[|before| + (256 * i + d)] == WeightBytes(tokens)[256 * i + d];
  }

  /** Nor do blanks behind it. */
  lemma BlankAfter(line: Bytes, blank: Byte)
    requires line != [] && Visible(line[0]) && (blank == 0x20 || 9 <= blank <= 13)
    ensures TokenOf(line + [blank]) == TokenOf(line)
  {
    assert SpaceAtFront(line + [blank]) == 0;
    assert SpaceAtBack(line + [blank]) == 1;
    assert (line + [blank])[..|line|] == line;
  }
}
