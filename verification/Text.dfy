/** Trimming of text, for a given notion of white space. */
module Text {

  function TrimStart(s: string, space: char -> bool): string {
    if s != "" && space(s[0]) then TrimStart(s[1..], space) else s
  }

  function TrimEnd(s: string, space: char -> bool): string {
    if s != "" && space(s[|s| - 1]) then TrimEnd(s[..|s| - 1], space) else s
  }

  function Trim(s: string, space: char -> bool): string {
    TrimEnd(TrimStart(s, space), space)
  }

  lemma {:induction false} TrimStartPrefix(a: string, b: string, space: char -> bool)
    requires b != "" && !space(b[0])
    ensures exists a' :: TrimStart(a + b, space) == a' + b && |a'| <= |a| && a' == a[|a| - |a'|..]
  {
    if a != "" && space(a[0]) {
      TrimStartPrefix(a[1..], b, space);
      assert (a + b)[1..] == a[1..] + b;
      var a' :| TrimStart(a[1..] + b, space) == a' + b && |a'| <= |a[1..]| && a' == a[1..][|a[1..]| - |a'|..];
      assert a' == a[|a| - |a'|..];
      assert TrimStart(a + b, space) == a' + b;
    } else {
      assert a == "" ==> (a + b) == b;
      assert TrimStart(a + b, space) == a + b;
      assert a == a[|a| - |a|..];
    }
  }

  lemma {:induction false} TrimEndSuffix(a: string, b: string, space: char -> bool)
    requires a != "" && !space(a[|a| - 1])
    ensures exists b' :: TrimEnd(a + b, space) == a + b' && b' <= b
  {
    if b != "" && space(b[|b| - 1]) {
      TrimEndSuffix(a, b[..|b| - 1], space);
      assert (a + b)[..|a + b| - 1] == a + b[..|b| - 1];
    } else {
      assert b == "" ==> (a + b) == a;
      assert TrimEnd(a + b, space) == a + b;
    }
  }
}
