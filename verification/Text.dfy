/** The string operations the budget and money code uses. */
module Text {

  /** The characters with the Unicode White_Space property. */
  predicate IsWhitespace(c: char) {
    || '\U{9}' <= c <= '\U{D}'
    || c == ' ' || c == '\U{85}' || c == '\U{A0}' || c == '\U{1680}'
    || '\U{2000}' <= c <= '\U{200A}'
    || c == '\U{2028}' || c == '\U{2029}' || c == '\U{202F}' || c == '\U{205F}' || c == '\U{3000}'
  }

  function TrimStart(s: string): (r: string)
    ensures |r| <= |s| && r == s[|s| - |r|..]
    ensures forall i :: 0 <= i < |s| - |r| ==> IsWhitespace(s[i])
    ensures r == "" || !IsWhitespace(r[0])
  {
    if s != "" && IsWhitespace(s[0]) then TrimStart(s[1..]) else s
  }

  function TrimEnd(s: string): (r: string)
    ensures |r| <= |s| && r == s[..|r|]
    ensures forall i :: |r| <= i < |s| ==> IsWhitespace(s[i])
    ensures r == "" || !IsWhitespace(r[|r| - 1])
  {
    if s != "" && IsWhitespace(s[|s| - 1]) then TrimEnd(s[..|s| - 1]) else s
  }

  /** Removes the whitespace at both ends. */
  function Trim(s: string): (r: string)
    ensures r == "" || (!IsWhitespace(r[0]) && !IsWhitespace(r[|r| - 1]))
  {
    hide IsWhitespace, TrimStart, TrimEnd;
    var start := TrimStart(s);
    var r := TrimEnd(start);
    assert r != "" ==> r[0] == start[0];
    r
  }

  /** Trimming changes nothing exactly when there is nothing to trim. */
  lemma TrimTrimmed(s: string)
    requires s == "" || (!IsWhitespace(s[0]) && !IsWhitespace(s[|s| - 1]))
    ensures Trim(s) == s
  {
  }

  lemma TrimTwice(s: string)
    ensures Trim(Trim(s)) == Trim(s)
  {
    hide Trim;
    TrimTrimmed(Trim(s));
  }

  predicate AllWhitespace(s: string) {
    forall i :: 0 <= i < |s| ==> IsWhitespace(s[i])
  }

  lemma {:induction false} TrimStartSkips(pad: string, s: string)
    requires AllWhitespace(pad)
    ensures TrimStart(pad + s) == TrimStart(s)
  {
    if pad == "" {
      assert pad + s == s;
    } else {
      assert (pad + s)[0] == pad[0] && (pad + s)[1..] == pad[1..] + s;
      TrimStartSkips(pad[1..], s);
    }
  }

  lemma {:induction false} TrimEndSkips(s: string, pad: string)
    requires AllWhitespace(pad)
    ensures TrimEnd(s + pad) == TrimEnd(s)
  {
    if pad == "" {
      assert s + pad == s;
    } else {
      var last := |pad| - 1;
      assert (s + pad)[|s| + last] == pad[last] && (s + pad)[..|s| + last] == s + pad[..last];
      TrimEndSkips(s, pad[..last]);
    }
  }

  lemma TrimStartKeeps(s: string, after: string)
    requires s != "" && !IsWhitespace(s[0])
    ensures TrimStart(s + after) == s + after
  {
    hide IsWhitespace;
    assert (s + after)[0] == s[0];
  }

  /** Trimming leaves nothing of whitespace alone. */
  lemma {:induction false} TrimBlank(s: string)
    requires AllWhitespace(s)
    ensures Trim(s) == ""
  {
    hide IsWhitespace, TrimEnd;
    if s != "" {
      TrimBlank(s[1..]);
    } else {
      TrimTrimmed("");
    }
  }

  /** What is left of a string after trimming is empty exactly if it is blank. */
  lemma BlankExactly(s: string)
    ensures Trim(s) == "" <==> AllWhitespace(s)
  {
    hide IsWhitespace, TrimStart, TrimEnd;
    if AllWhitespace(s) {
      TrimBlank(s);
    } else {
      var i :| 0 <= i < |s| && !IsWhitespace(s[i]);
      var start := TrimStart(s);
      assert i >= |s| - |start| && start[i - (|s| - |start|)] == s[i];
    }
  }

  /** Of the ASCII characters, white space is tab to carriage return, and space. */
  lemma AsciiWhitespace(c: char)
    requires c < '\U{80}'
    ensures IsWhitespace(c) <==> c as int in {9, 10, 11, 12, 13, 32}
  {
  }

  /** Whitespace around a trimmed string is all that trimming removes. */
  lemma TrimPadded(before: string, s: string, after: string)
    requires AllWhitespace(before) && AllWhitespace(after) && Trim(s) == s
    ensures Trim(before + s + after) == s
  {
    hide IsWhitespace, TrimStart, TrimEnd;
    assert before + s + after == before + (s + after);
    TrimStartSkips(before, s + after);
    if s == "" {
      assert s + after == after + "";
      TrimStartSkips(after, "");
    } else {
      TrimStartKeeps(s, "");
      TrimStartKeeps(s, after);
      assert s + "" == s;
      TrimEndSkips(s, after);
    }
  }

  predicate OccursAt(s: string, part: string, i: nat) {
    i + |part| <= |s| && s[i..i + |part|] == part
  }

  predicate Contains(s: string, part: string) {
    exists i: nat | i <= |s| :: OccursAt(s, part, i)
  }
}
