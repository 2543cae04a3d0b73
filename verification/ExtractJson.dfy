/** Finding the first JSON value in tool output (`extract_json` of scripts/run-structured-query-field-tests.py). */
module ExtractJson {
  import opened Wrappers
  import Text

  /** The outcome: a parsed value, a bare count on the last line, or nothing. */
  datatype Extracted<V> = Value(value: V) | CountOnly(count: int) | Nothing

  /** The white space that `str.strip` removes. */
  predicate PySpace(c: char) {
    || '\t' <= c <= '\r' || '\U{1C}' <= c <= ' ' || c == '\U{85}' || c == '\U{A0}' || c == '\U{1680}'
    || '\U{2000}' <= c <= '\U{200A}' || c == '\U{2028}' || c == '\U{2029}' || c == '\U{202F}' || c == '\U{205F}'
         || c == '\U{3000}'
  }

  /** Where `str.splitlines` breaks lines. */
  predicate LineBreak(c: char) {
    '\n' <= c <= '\r' || '\U{1C}' <= c <= '\U{1E}' || c == '\U{85}' || c == '\U{2028}' || c == '\U{2029}'
  }

  function LastLine(text: string): string {
    if text == "" || LineBreak(text[|text| - 1]) then "" else LastLine(text[..|text| - 1]) + [text[|text| - 1]]
  }

  predicate AllDigits(s: string) {
    s != "" && forall i | 0 <= i < |s| :: '0' <= s[i] <= '9'
  }

  predicate IsInteger(s: string) {
    AllDigits(s) || (s != "" && s[0] == '-' && AllDigits(s[1..]))
  }

  function DigitsValue(s: string): int
    requires forall i | 0 <= i < |s| :: '0' <= s[i] <= '9'
  {
    if s == "" then 0 else 10 * DigitsValue(s[..|s| - 1]) + (s[|s| - 1] as int - '0' as int)
  }

  function IntegerValue(s: string): int
    requires IsInteger(s)
  {
    if s[0] == '-' then -DigitsValue(s[1..]) else DigitsValue(s)
  }

  // ---------------------------------------------------------------- the scanner

  /** The scanner counts only brackets of the kind it started with, and none inside strings. */
  datatype Scan = Scan(depth: int, inStr: bool, esc: bool)

  predicate Opener(c: char) {
    c == '{' || c == '['
  }

  function CloserOf(opener: char): char {
    if opener == '{' then '}' else ']'
  }

  function Next(st: Scan, c: char, opener: char): Scan {
    if st.inStr then
      if st.esc then st.(esc := false)
      else if c == '\\' then st.(esc := true)
      else if c == '"' then st.(inStr := false)
      else st
    else if c == '"' then st.(inStr := true)
    else if c == opener then st.(depth := st.depth + 1)
    else if c == CloserOf(opener) then st.(depth := st.depth - 1)
    else st
  }

  predicate Closes(st: Scan, c: char, opener: char) {
    !st.inStr && c != '"' && c != opener && c == CloserOf(opener) && st.depth == 1
  }

  function Later(n: Option<nat>, k: nat): Option<nat> {
    match n case None => None case Some(m) => Some(m + k)
  }

  /** How many characters it takes until the depth first returns to zero, if it does. */
  function CloseLength(s: string, st: Scan, opener: char): (n: Option<nat>)
    ensures n.Some? ==> 0 < n.value <= |s|
  {
    if s == "" then None
    else if Closes(st, s[0], opener) then Some(1)
    else Later(CloseLength(s[1..], Next(st, s[0], opener), opener), 1)
  }

  /** The text that is tried at position `i`: from an opening bracket to where its depth returns to zero. */
  function Chunk(text: string, i: nat): Option<string>
    requires i < |text|
  {
    if !Opener(text[i]) then None
    else
      match CloseLength(text[i..], Scan(0, false, false), text[i])
      case None => None
      case Some(n) => Some(text[i..i + n])
  }

  function Attempt<V>(text: string, i: nat, loads: string -> Option<V>): Option<V>
    requires i < |text|
  {
    match Chunk(text, i) case None => None case Some(chunk) => loads(chunk)
  }

  /** The value of the first position, from `i` on, whose chunk is JSON. */
  function FirstValue<V>(text: string, i: nat, loads: string -> Option<V>): Option<V>
    requires i <= |text|
    decreases |text| - i
  {
    if i == |text| then None
    else if Attempt(text, i, loads).Some? then Attempt(text, i, loads)
    else FirstValue(text, i + 1, loads)
  }

  function Extract<V>(output: string, loads: string -> Option<V>): Extracted<V> {
    var text := Text.Trim(output, PySpace);
    if text == "" then Nothing
    else
      match FirstValue(text, 0, loads)
      case Some(v) => Value(v)
      case None =>
        var line := Text.Trim(LastLine(text), PySpace);
        if IsInteger(line) then CountOnly(IntegerValue(line)) else Nothing
  }

  lemma {:induction false} CloseStep(text: string, j: nat, st: Scan, opener: char)
    requires j < |text|
    ensures CloseLength(text[j..], st, opener)
         == if Closes(st, text[j], opener) then Some(1)
            else Later(CloseLength(text[j + 1..], Next(st, text[j], opener), opener), 1)
  {
    assert text[j..][0] == text[j] && text[j..][1..] == text[j + 1..];
  }

  /** Scanning from `i` has come to `j` in state `st`. */
  ghost predicate Reached(text: string, i: nat, j: nat, st: Scan, opener: char)
    requires i <= j <= |text|
  {
    CloseLength(text[i..], Scan(0, false, false), opener) == Later(CloseLength(text[j..], st, opener), j - i)
  }

  lemma {:induction false} ReachedNext(text: string, i: nat, j: nat, st: Scan, opener: char)
    requires i <= j < |text| && Reached(text, i, j, st, opener)
    ensures Closes(st, text[j], opener) ==> CloseLength(text[i..], Scan(0, false, false), opener) == Some(j + 1 - i)
    ensures !Closes(st, text[j], opener) ==> Reached(text, i, j + 1, Next(st, text[j], opener), opener)
  {
    CloseStep(text, j, st, opener);
  }

  /** The inner loop: scan from an opening bracket to where the depth returns to zero. */
  method ScanChunk(text: string, i: nat) returns (chunk: Option<string>)
    requires i < |text| && Opener(text[i])
    ensures chunk == Chunk(text, i)
  {
    var opener := text[i];
    var closer := if opener == '{' then '}' else ']';
    var depth, inStr, esc := 0, false, false;
    for j := i to |text|
      invariant Reached(text, i, j, Scan(depth, inStr, esc), opener)
    {
      var c := text[j];
      ReachedNext(text, i, j, Scan(depth, inStr, esc), opener);
      if inStr {
        if esc {
          esc := false;
        } else if c == '\\' {
          esc := true;
        } else if c == '"' {
          inStr := false;
        }
        continue;
      }
      if c == '"' {
        inStr := true;
      } else if c == opener {
        depth := depth + 1;
      } else if c == closer {
        depth := depth - 1;
        if depth == 0 {
          return Some(text[i..j + 1]);
        }
      }
    }
    return None;
  }

  /** The script; parsing a chunk is the parameter `loads`, which is absent where it raises. */
  method ExtractFirstJson<V>(output: string, loads: string -> Option<V>) returns (r: Extracted<V>)
    ensures r == Extract(output, loads)
  {
    var text := Text.Trim(output, PySpace);
    if text == "" {
      return Nothing;
    }
    for i := 0 to |text|
      invariant FirstValue(text, 0, loads) == FirstValue(text, i, loads)
    {
      if !Opener(text[i]) {
        continue;
      }
      var chunk := ScanChunk(text, i);
      if chunk.Some? {
        var parsed := loads(chunk.value);
        if parsed.Some? {
          return Value(parsed.value);
        }
      }
    }
    var line := Text.Trim(LastLine(text), PySpace);
    if IsInteger(line) {
      return CountOnly(IntegerValue(line));
    }
    return Nothing;
  }

  // ---------------------------------------------------------------- bracketed text

  datatype StrItem = Plain(c: char) | Escaped(c: char)

  /**
   Text as far as brackets and strings go: runs without either, string literals (section 7 of RFC 8259), and
   bracketed groups. Every JSON text has this shape, with whatever white space between its tokens.
   */
  datatype Tree = Run(chars: string) | Str(items: seq<StrItem>) | Group(open: char, children: seq<Tree>)

  /** Outside of strings only quotes and brackets matter. */
  predicate Neutral(c: char) {
    c != '"' && c != '{' && c != '}' && c != '[' && c != ']'
  }

  predicate ValidTree(t: Tree) {
    match t
    case Run(chars) => forall c <- chars :: Neutral(c)
    case Str(items) => forall i <- items | i.Plain? :: i.c != '"' && i.c != '\\'
    case Group(open, children) => Opener(open) && forall c <- children :: ValidTree(c)
  }

  function ItemsText(items: seq<StrItem>): string {
    if items == [] then ""
    else ItemText(items[0]) + ItemsText(items[1..])
  }

  function TreeText(t: Tree): string
    decreases t
  {
    match t
    case Run(chars) => chars
    case Str(items) => "\"" + ItemsText(items) + "\""
    case Group(open, children) => [open] + ForestText(children) + [CloserOf(open)]
  }

  function ForestText(ts: seq<Tree>): string
    decreases ts
  {
    if ts == [] then "" else TreeText(ts[0]) + ForestText(ts[1..])
  }

  lemma {:induction false} CloseNext(c: char, rest: string, st: Scan, opener: char)
    requires !Closes(st, c, opener)
    ensures CloseLength([c] + rest, st, opener) == Later(CloseLength(rest, Next(st, c, opener), opener), 1)
  {
    assert ([c] + rest)[1..] == rest;
  }

  /** A run without quotes and brackets changes nothing. */
  lemma {:induction false} PassRun(chars: string, rest: string, depth: int, opener: char)
    requires Opener(opener) && forall c <- chars :: Neutral(c)
    ensures CloseLength(chars + rest, Scan(depth, false, false), opener)
         == Later(CloseLength(rest, Scan(depth, false, false), opener), |chars|)
  {
    if chars == "" {
      assert chars + rest == rest;
    } else {
      assert chars[0] in chars;
      CloseNext(chars[0], chars[1..] + rest, Scan(depth, false, false), opener);
      assert chars + rest == [chars[0]] + (chars[1..] + rest);
      PassRun(chars[1..], rest, depth, opener);
    }
  }

  function ItemText(item: StrItem): string {
    match item case Plain(c) => [c] case Escaped(c) => ['\\', c]
  }

  /** An item of a string leaves the scanner inside the string; an escaped character never ends it. */
  lemma {:induction false} PassItem(item: StrItem, rest: string, depth: int, opener: char)
    requires item.Plain? ==> item.c != '"' && item.c != '\\'
    ensures CloseLength(ItemText(item) + rest, Scan(depth, true, false), opener)
         == Later(CloseLength(rest, Scan(depth, true, false), opener), |ItemText(item)|)
  {
    match item {
      case Plain(c) =>
        CloseNext(c, rest, Scan(depth, true, false), opener);
      case Escaped(c) =>
        assert ItemText(item) + rest == ['\\'] + ([c] + rest);
        CloseNext('\\', [c] + rest, Scan(depth, true, false), opener);
        CloseNext(c, rest, Scan(depth, true, true), opener);
    }
  }

  /** Inside a string nothing counts until its closing quote. */
  lemma {:induction false} PassItems(items: seq<StrItem>, rest: string, depth: int, opener: char)
    requires forall i <- items | i.Plain? :: i.c != '"' && i.c != '\\'
    ensures CloseLength(ItemsText(items) + rest, Scan(depth, true, false), opener)
         == Later(CloseLength(rest, Scan(depth, true, false), opener), |ItemsText(items)|)
  {
    if items == [] {
      assert ItemsText(items) + rest == rest;
    } else {
      assert items[0] in items;
      assert ItemsText(items) + rest == ItemText(items[0]) + (ItemsText(items[1..]) + rest);
      PassItem(items[0], ItemsText(items[1..]) + rest, depth, opener);
      PassItems(items[1..], rest, depth, opener);
    }
  }

  lemma {:induction false} PassString(items: seq<StrItem>, rest: string, depth: int, opener: char)
    requires Opener(opener) && forall i <- items | i.Plain? :: i.c != '"' && i.c != '\\'
    ensures CloseLength(TreeText(Str(items)) + rest, Scan(depth, false, false), opener)
         == Later(CloseLength(rest, Scan(depth, false, false), opener), |TreeText(Str(items))|)
  {
    var ending := ['"'] + rest;
    assert TreeText(Str(items)) + rest == ['"'] + (ItemsText(items) + ending);
    CloseNext('"', ItemsText(items) + ending, Scan(depth, false, false), opener);
    PassItems(items, ending, depth, opener);
    CloseNext('"', rest, Scan(depth, true, false), opener);
  }

  /** A complete tree, met at positive depth, is passed over and leaves the depth as it was. */
  lemma {:induction false} PassTree(t: Tree, rest: string, depth: int, opener: char)
    requires Opener(opener) && ValidTree(t) && depth >= 1
    ensures CloseLength(TreeText(t) + rest, Scan(depth, false, false), opener)
         == Later(CloseLength(rest, Scan(depth, false, false), opener), |TreeText(t)|)
    decreases t, 1
  {
    match t {
      case Run(chars) => PassRun(chars, rest, depth, opener);
      case Str(items) => PassString(items, rest, depth, opener);
      case Group(open, children) => PassGroup(open, children, t, rest, depth, opener);
    }
  }

  lemma {:induction false} PassGroup(open: char, children: seq<Tree>, t: Tree, rest: string, depth: int, opener: char)
    requires t == Group(open, children) && Opener(opener) && ValidTree(t) && depth >= 1
    ensures CloseLength(TreeText(t) + rest, Scan(depth, false, false), opener)
         == Later(CloseLength(rest, Scan(depth, false, false), opener), |TreeText(t)|)
    decreases t, 0
  {
    var body := ForestText(children);
    PassForest(children, [CloserOf(open)] + rest, Inner(open, depth, opener).depth, opener);
    PassBrackets(open, body, rest, depth, opener);
    assert TreeText(t) + rest == [open] + (body + ([CloserOf(open)] + rest));
  }

  /** Inside a group, in terms of the depth around it: one deeper for the own kind of bracket. */
  function Inner(open: char, depth: int, opener: char): Scan {
    Scan(depth + if open == opener then 1 else 0, false, false)
  }

  lemma BracketSteps(open: char, depth: int, opener: char)
    requires Opener(open) && Opener(opener) && depth >= 1
    ensures var outer, inner := Scan(depth, false, false), Inner(open, depth, opener);
            && !Closes(outer, open, opener) && Next(outer, open, opener) == inner
            && !Closes(inner, CloserOf(open), opener) && Next(inner, CloserOf(open), opener) == outer
  {
  }

  /**
   Brackets around a passable body: of the own kind they go one level down and up again, of the other kind nowhere.
   */
  lemma {:induction false} PassBrackets(open: char, body: string, rest: string, depth: int, opener: char)
    requires Opener(open) && Opener(opener) && depth >= 1
    requires CloseLength(body + ([CloserOf(open)] + rest), Inner(open, depth, opener), opener)
          == Later(CloseLength([CloserOf(open)] + rest, Inner(open, depth, opener), opener), |body|)
    ensures CloseLength([open] + (body + ([CloserOf(open)] + rest)), Scan(depth, false, false), opener)
         == Later(CloseLength(rest, Scan(depth, false, false), opener), |body| + 2)
  {
    BracketSteps(open, depth, opener);
    var closing := [CloserOf(open)] + rest;
    InAndOut(open, body + closing, closing, CloserOf(open), rest, |body|,
             Scan(depth, false, false), Inner(open, depth, opener), opener);
  }

  /** One character in, a passable stretch of length `n`, one character out. */
  lemma {:induction false} InAndOut(first: char, afterFirst: string, closing: string, last: char, rest: string, n: nat,
                                    outer: Scan, inner: Scan, opener: char)
    requires closing == [last] + rest
    requires !Closes(outer, first, opener) && Next(outer, first, opener) == inner
    requires !Closes(inner, last, opener) && Next(inner, last, opener) == outer
    requires CloseLength(afterFirst, inner, opener) == Later(CloseLength(closing, inner, opener), n)
    ensures CloseLength([first] + afterFirst, outer, opener) == Later(CloseLength(rest, outer, opener), n + 2)
  {
    CloseNext(first, afterFirst, outer, opener);
    CloseNext(last, rest, inner, opener);
  }

  lemma {:induction false} PassForest(ts: seq<Tree>, rest: string, depth: int, opener: char)
    requires Opener(opener) && (forall t <- ts :: ValidTree(t)) && depth >= 1
    ensures CloseLength(ForestText(ts) + rest, Scan(depth, false, false), opener)
         == Later(CloseLength(rest, Scan(depth, false, false), opener), |ForestText(ts)|)
    decreases ts
  {
    if ts == [] {
      assert ForestText(ts) + rest == rest;
    } else {
      assert ForestText(ts) + rest == TreeText(ts[0]) + (ForestText(ts[1..]) + rest);
      PassTree(ts[0], ForestText(ts[1..]) + rest, depth, opener);
      PassForest(ts[1..], rest, depth, opener);
    }
  }

  /** From its opening bracket, the depth of a group first returns to zero exactly at its last character. */
  lemma {:induction false} GroupClosesAtItsEnd(open: char, children: seq<Tree>, tail: string)
    requires ValidTree(Group(open, children))
    ensures CloseLength(TreeText(Group(open, children)) + tail, Scan(0, false, false), open)
         == Some(|TreeText(Group(open, children))|)
  {
    var closing := [CloserOf(open)] + tail;
    var s := TreeText(Group(open, children)) + tail;
    assert s == [open] + (ForestText(children) + closing);
    CloseNext(open, ForestText(children) + closing, Scan(0, false, false), open);
    PassForest(children, closing, 1, open);
    assert Closes(Scan(1, false, false), closing[0], open);
  }

  // ---------------------------------------------------------------- JSON values

  datatype Json =
    | JNull
    | JBool(b: bool)
    | JNumber(text: string)
    | JString(chars: string)
    | JArray(elements: seq<Json>)
    | JObject(members: seq<Member>)

  datatype Member = Member(name: string, value: Json)

  /** Number texts hold digits, signs, points and exponents; everything else is free. */
  predicate NumberChar(c: char) {
    '0' <= c <= '9' || c == '+' || c == '-' || c == '.' || c == 'e' || c == 'E'
  }

  predicate ValidJson(v: Json) {
    match v
    case JNull => true
    case JBool(_) => true
    case JNumber(text) => forall c <- text :: NumberChar(c)
    case JString(_) => true
    case JArray(elements) => forall e <- elements :: ValidJson(e)
    case JObject(members) => forall m <- members :: ValidJson(m.value)
  }

  function HexDigit(n: nat): char
    requires n < 16
  {
    "0123456789abcdef"[n]
  }

  /** Quotes, backslashes and control characters are escaped, as section 7 of RFC 8259 demands. */
  function EscapeChar(c: char): seq<StrItem> {
    if c == '"' || c == '\\' then [Escaped(c)]
    else if c < ' ' then
      [Escaped('u'), Plain('0'), Plain('0'), Plain(HexDigit(c as int / 16)), Plain(HexDigit(c as int % 16))]
    else [Plain(c)]
  }

  function StringItems(chars: string): seq<StrItem> {
    if chars == "" then [] else EscapeChar(chars[0]) + StringItems(chars[1..])
  }

  /** The printed form of a value, as a tree: `, ` between elements and `: ` after names. */
  function Shape(v: Json): Tree
    decreases v
  {
    match v
    case JNull => Run("null")
    case JBool(b) => Run(if b then "true" else "false")
    case JNumber(text) => Run(text)
    case JString(chars) => Str(StringItems(chars))
    case JArray(elements) => Group('[', ElementShapes(elements))
    case JObject(members) => Group('{', MemberShapes(members))
  }

  function ElementShapes(elements: seq<Json>): seq<Tree>
    decreases elements
  {
    if elements == [] then []
    else [Shape(elements[0])] + (if |elements| > 1 then [Run(", ")] else []) + ElementShapes(elements[1..])
  }

  function MemberShapes(members: seq<Member>): seq<Tree>
    decreases members
  {
    if members == [] then []
    else
      [Str(StringItems(members[0].name)), Run(": "), Shape(members[0].value)]
      + (if |members| > 1 then [Run(", ")] else []) + MemberShapes(members[1..])
  }

  function Print(v: Json): string {
    TreeText(Shape(v))
  }

  lemma {:induction false} StringItemsValid(chars: string)
    ensures ValidTree(Str(StringItems(chars)))
  {
    if chars != "" {
      StringItemsValid(chars[1..]);
    }
  }

  lemma WordValid(text: string)
    requires text == "null" || text == "true" || text == "false" || forall c <- text :: NumberChar(c)
    ensures ValidTree(Run(text))
  {
  }

  lemma {:induction false} ShapeValid(v: Json)
    requires ValidJson(v)
    ensures ValidTree(Shape(v))
    decreases v
  {
    match v {
      case JNull => WordValid("null");
      case JBool(b) => WordValid(if b then "true" else "false");
      case JNumber(text) => WordValid(text);
      case JString(chars) => StringItemsValid(chars);
      case JArray(elements) => ElementShapesValid(elements);
      case JObject(members) => MemberShapesValid(members);
    }
  }

  lemma {:induction false} ElementShapesValid(elements: seq<Json>)
    requires forall e <- elements :: ValidJson(e)
    ensures forall t <- ElementShapes(elements) :: ValidTree(t)
    decreases elements
  {
    if elements != [] {
      ShapeValid(elements[0]);
      ElementShapesValid(elements[1..]);
    }
  }

  lemma {:induction false} MemberShapesValid(members: seq<Member>)
    requires forall m <- members :: ValidJson(m.value)
    ensures forall t <- MemberShapes(members) :: ValidTree(t)
    decreases members
  {
    if members != [] {
      StringItemsValid(members[0].name);
      ShapeValid(members[0].value);
      MemberShapesValid(members[1..]);
    }
  }

  // ---------------------------------------------------------------- extraction finds what was printed

  lemma {:induction false} SkipFailures<V>(text: string, i: nat, n: nat, loads: string -> Option<V>)
    requires i <= n <= |text| && forall k | i <= k < n :: Attempt(text, k, loads).None?
    ensures FirstValue(text, i, loads) == FirstValue(text, n, loads)
    decreases n - i
  {
    if i < n {
      SkipFailures(text, i + 1, n, loads);
    }
  }

  /** White space is only cut off the banner and the tail, never off a bracketed group. */
  lemma TrimAround(banner: string, group: string, tail: string) returns (banner': string, tail': string)
    requires group != "" && !PySpace(group[0]) && !PySpace(group[|group| - 1])
    ensures Text.Trim(banner + group + tail, PySpace) == banner' + group + tail'
    ensures |banner'| <= |banner| && banner' == banner[|banner| - |banner'|..] && tail' <= tail
  {
    assert banner + group + tail == banner + (group + tail);
    Text.TrimStartPrefix(banner, group + tail, PySpace);
    banner' :| Text.TrimStart(banner + (group + tail), PySpace) == banner' + (group + tail)
      && |banner'| <= |banner| && banner' == banner[|banner| - |banner'|..];
    assert banner' + (group + tail) == (banner' + group) + tail;
    Text.TrimEndSuffix(banner' + group, tail, PySpace);
    tail' :| Text.TrimEnd((banner' + group) + tail, PySpace) == (banner' + group) + tail' && tail' <= tail;
  }

  /** The chunk tried at a group is the group, whatever stands before and behind it. */
  lemma ChunkIsGroup(before: string, open: char, children: seq<Tree>, behind: string)
    requires ValidTree(Group(open, children))
    ensures var group := TreeText(Group(open, children));
            && |before| < |before + group + behind|
            && Chunk(before + group + behind, |before|) == Some(group)
  {
    var group := TreeText(Group(open, children));
    var text := before + group + behind;
    assert text[|before|..] == group + behind;
    GroupClosesAtItsEnd(open, children, behind);
    assert text[|before|..|before| + |group|] == group;
  }

  lemma {:induction false} CloseLengthExtends(s: string, rest: string, st: Scan, opener: char)
    requires CloseLength(s, st, opener).Some?
    ensures CloseLength(s + rest, st, opener) == CloseLength(s, st, opener)
  {
    if !Closes(st, s[0], opener) {
      CloseLengthExtends(s[1..], rest, Next(st, s[0], opener), opener);
      assert (s + rest)[1..] == s[1..] + rest;
    }
  }

  /** Text added at both ends does not change which chunk is tried at a position, if one was found there. */
  lemma ChunkStays(front: string, text: string, rest: string, i: nat)
    requires i < |text| && Chunk(text, i).Some?
    ensures Chunk(front + text + rest, |front| + i) == Chunk(text, i)
  {
    var whole, j := front + text + rest, |front| + i;
    assert whole[j..] == text[i..] + rest;
    CloseLengthExtends(text[i..], rest, Scan(0, false, false), text[i]);
    var n := CloseLength(text[i..], Scan(0, false, false), text[i]).value;
    assert whole[j..j + n] == text[i..i + n];
  }

  /** No position in the banner starts a chunk that parses. */
  ghost predicate NothingBefore<V>(banner: string, behind: string, loads: string -> Option<V>) {
    forall k | 0 <= k < |banner| :: Attempt(banner + behind, k, loads).None?
  }

  /** The first bracketed group whose text parses is the answer; earlier brackets that do not parse are passed over. */
  lemma ExtractFindsGroup<V>(banner: string, open: char, children: seq<Tree>, tail: string, loads: string -> Option<V>)
    requires ValidTree(Group(open, children)) && loads(TreeText(Group(open, children))).Some?
    requires NothingBefore(banner, TreeText(Group(open, children)) + tail, loads)
    ensures Extract(banner + TreeText(Group(open, children)) + tail, loads)
         == Value(loads(TreeText(Group(open, children))).value)
  {
    var group := TreeText(Group(open, children));
    assert group[0] == open && group[|group| - 1] == CloserOf(open);
    var before, behind := TrimAround(banner, group, tail);
    FailuresStay(banner, before, group, behind, tail, loads);
    SkipFailures(before + group + behind, 0, |before|, loads);
    ChunkIsGroup(before, open, children, behind);
  }

  /** What does not parse before trimming does not parse after it. */
  lemma FailuresStay<V>(banner: string, before: string, group: string, behind: string, tail: string,
                        loads: string -> Option<V>)
    requires NothingBefore(banner, group + tail, loads)
    requires |before| <= |banner| && before == banner[|banner| - |before|..] && behind <= tail
    ensures forall k | 0 <= k < |before| :: Attempt(before + group + behind, k, loads).None?
  {
    var text := before + group + behind;
    var front, rest := banner[..|banner| - |before|], tail[|behind|..];
    assert banner + (group + tail) == front + text + rest;
    forall k | 0 <= k < |before| ensures Attempt(text, k, loads).None? {
      assert Attempt(banner + (group + tail), |front| + k, loads).None?;
      if Chunk(text, k).Some? {
        ChunkStays(front, text, rest, k);
      }
    }
  }

  lemma PlainBanner<V>(banner: string, behind: string, loads: string -> Option<V>)
    requires forall c <- banner :: !Opener(c)
    ensures NothingBefore(banner, behind, loads)
  {
    forall k | 0 <= k < |banner| ensures Attempt(banner + behind, k, loads).None? {
      assert (banner + behind)[k] == banner[k] && banner[k] in banner;
    }
  }

  /**
   An array or object that is printed before any tail is returned if no bracket before it starts a text that parses.
   */
  lemma {:induction false} ExtractReturnsFirst(banner: string, v: Json, tail: string, loads: string -> Option<Json>)
    requires (v.JArray? || v.JObject?) && ValidJson(v) && loads(Print(v)) == Some(v)
    requires NothingBefore(banner, Print(v) + tail, loads)
    ensures Extract(banner + Print(v) + tail, loads) == Value(v)
  {
    ShapeValid(v);
    ExtractFindsGroup(banner, Shape(v).open, Shape(v).children, tail, loads);
  }

  /** For every array or object, printed after any banner without opening brackets and before any tail. */
  lemma {:induction false} ExtractReturnsPrinted(banner: string, v: Json, tail: string, loads: string -> Option<Json>)
    requires (v.JArray? || v.JObject?) && ValidJson(v) && forall c <- banner :: !Opener(c)
    requires loads(Print(v)) == Some(v)
    ensures Extract(banner + Print(v) + tail, loads) == Value(v)
  {
    PlainBanner(banner, Print(v) + tail, loads);
    ExtractReturnsFirst(banner, v, tail, loads);
  }

  // ---------------------------------------------------------------- bare counts

  /** The decimal digits of a number. */
  function Decimal(n: nat): string {
    if n < 10 then ["0123456789"[n]] else Decimal(n / 10) + ["0123456789"[n % 10]]
  }

  function Printed(n: int): string {
    if n < 0 then "-" + Decimal(-n) else Decimal(n)
  }

  lemma {:induction false} DecimalReads(n: nat)
    ensures AllDigits(Decimal(n)) && DigitsValue(Decimal(n)) == n
  {
    if n >= 10 {
      DecimalReads(n / 10);
      var s, last := Decimal(n / 10), "0123456789"[n % 10];
      assert (s + [last])[..|s|] == s;
      assert last as int == '0' as int + n % 10;
    }
  }

  lemma PrintedReads(n: int)
    ensures IsInteger(Printed(n)) && IntegerValue(Printed(n)) == n
    ensures forall c <- Printed(n) :: c == '-' || '0' <= c <= '9'
  {
    DecimalReads(if n < 0 then -n else n);
  }

  lemma {:induction false} LastLineIs(before: string, line: string)
    requires before == "" || LineBreak(before[|before| - 1])
    requires forall c <- line :: !LineBreak(c)
    ensures LastLine(before + line) == line
  {
    var s := before + line;
    if line != "" {
      var n := |line| - 1;
      assert s[|s| - 1] == line[n] && line[n] in line;
      assert s[..|s| - 1] == before + line[..n];
      LastLineIs(before, line[..n]);
      assert line == line[..n] + [line[n]];
    } else {
      assert s == before;
    }
  }

  lemma NothingToTrim(text: string)
    requires text != "" && !PySpace(text[0]) && !PySpace(text[|text| - 1])
    ensures Text.Trim(text, PySpace) == text
  {
  }

  lemma {:induction false} NoValue<V>(text: string, loads: string -> Option<V>)
    requires forall k | 0 <= k < |text| :: Attempt(text, k, loads).None?
    ensures FirstValue(text, 0, loads) == None
  {
    SkipFailures(text, 0, |text|, loads);
  }

  /** A number on the last line is the count, if nothing before it is JSON. */
  lemma CountIsRead<V>(before: string, n: int, loads: string -> Option<V>)
    requires before != "" ==> !PySpace(before[0]) && before[|before| - 1] == '\n'
    requires forall k | 0 <= k < |before| + |Printed(n)| :: Attempt(before + Printed(n), k, loads).None?
    ensures Extract(before + Printed(n), loads) == CountOnly(n)
  {
    var line := Printed(n);
    var text := before + line;
    PrintedReads(n);
    assert line[0] in line && line[|line| - 1] in line;
    NothingToTrim(text);
    NothingToTrim(line);
    NoValue(text, loads);
    LastLineIs(before, line);
  }

  // ---------------------------------------------------------------- how values are printed

  lemma PrintedEmpty()
    ensures Print(JArray([])) == "[]" && Print(JObject([])) == "{}"
  {
    assert ForestText([]) == "";
  }

  lemma PrintedArray()
    ensures Print(JArray([JNull, JNumber("-1.5")])) == "[null, -1.5]"
  {
    var two := [JNull, JNumber("-1.5")];
    assert two[1..] == [JNumber("-1.5")];
    assert ElementShapes(two) == [Run("null"), Run(", "), Run("-1.5")];
    ForestOf([Run("null"), Run(", "), Run("-1.5")]);
    ForestOf([Run(", "), Run("-1.5")]);
    ForestOf([Run("-1.5")]);
  }

  lemma PrintedObject()
    ensures Print(JObject([Member("a", JBool(false))])) == "{\"a\": false}"
  {
    assert StringItems("a") == [Plain('a')];
    assert MemberShapes([Member("a", JBool(false))]) == [Str([Plain('a')]), Run(": "), Run("false")];
    ForestOf([Str([Plain('a')]), Run(": "), Run("false")]);
    ForestOf([Run(": "), Run("false")]);
    ForestOf([Run("false")]);
    assert ItemsText([Plain('a')]) == "a";
  }

  lemma {:induction false} ForestOf(ts: seq<Tree>)
    requires ts != []
    ensures ForestText(ts) == TreeText(ts[0]) + ForestText(ts[1..])
  {
  }
}
