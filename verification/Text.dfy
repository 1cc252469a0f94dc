/** Trimming of white space, as Go and JavaScript do it. */
module Text {

  /** Unicode white space: what strings.TrimSpace removes. */
  predicate IsSpace(c: char) {
    || '\t' <= c <= '\r' || c == ' ' || c == '\U{85}' || c == '\U{A0}' || c == '\U{1680}'
    || '\U{2000}' <= c <= '\U{200A}' || c == '\U{2028}' || c == '\U{2029}' || c == '\U{202F}'
    || c == '\U{205F}' || c == '\U{3000}'
  }

  /** ECMAScript white space and line terminators: what trim() removes and \s matches. */
  predicate IsScriptSpace(c: char) {
    (IsSpace(c) && c != '\U{85}') || c == '\U{FEFF}'
  }

  function TrimLeft(space: char -> bool, s: string): (r: string)
    ensures r == [] || !space(r[0])
    ensures s == [] || !space(s[0]) ==> r == s
  {
    if s != [] && space(s[0]) then TrimLeft(space, s[1..]) else s
  }

  function TrimRight(space: char -> bool, s: string): (r: string)
    ensures r == [] || !space(r[|r| - 1])
    ensures s == [] || !space(s[|s| - 1]) ==> r == s
    ensures r <= s
  {
    if s != [] && space(s[|s| - 1]) then TrimRight(space, s[..|s| - 1]) else s
  }

  function Trim(space: char -> bool, s: string): (r: string)
    ensures r == [] || (!space(r[0]) && !space(r[|r| - 1]))
    ensures s != [] && !space(s[0]) && !space(s[|s| - 1]) ==> r == s
  {
    TrimRight(space, TrimLeft(space, s))
  }

  function TrimSpace(s: string): (r: string)
    ensures r == [] || (!IsSpace(r[0]) && !IsSpace(r[|r| - 1]))
  {
    Trim(IsSpace, s)
  }

  /** The 25 code points with the Unicode property White_Space. */
  lemma SpaceTable(c: char)
    ensures IsSpace(c)
            <==> c in {'\U{9}', '\U{A}', '\U{B}', '\U{C}', '\U{D}', '\U{20}', '\U{85}', '\U{A0}', '\U{1680}',
                       '\U{2000}', '\U{2001}', '\U{2002}', '\U{2003}', '\U{2004}', '\U{2005}', '\U{2006}', '\U{2007}',
                       '\U{2008}', '\U{2009}', '\U{200A}', '\U{2028}', '\U{2029}', '\U{202F}', '\U{205F}', '\U{3000}'}
    ensures IsScriptSpace(c) <==> (IsSpace(c) || c == '\U{FEFF}') && c != '\U{85}'
  {
  }

  lemma {:induction false} TrimLeftIs(space: char -> bool, s: string)
    ensures var r := TrimLeft(space, s);
            |r| <= |s| && s[|s| - |r|..] == r && forall j :: 0 <= j < |s| - |r| ==> space(s[j])
  {
    if s != [] && space(s[0]) {
      TrimLeftIs(space, s[1..]);
      var n := |s| - |TrimLeft(space, s)|;
      forall j | 0 <= j < n ensures space(s[j]) {
        if j > 0 { assert s[j] == s[1..][j - 1]; }
      }
    }
  }

  lemma {:induction false} TrimRightIs(space: char -> bool, s: string)
    ensures forall j :: |TrimRight(space, s)| <= j < |s| ==> space(s[j])
  {
    if s != [] && space(s[|s| - 1]) {
      TrimRightIs(space, s[..|s| - 1]);
    }
  }

  /** Trimming takes away outer white space, all of it and nothing else. */
  lemma TrimIs(space: char -> bool, s: string) returns (i: nat)
    ensures var r := Trim(space, s);
            && i + |r| <= |s| && s[i..i + |r|] == r
            && (forall j :: 0 <= j < i || i + |r| <= j < |s| ==> space(s[j]))
            && (r != [] ==> !space(r[0]) && !space(r[|r| - 1]))
  {
    var left := TrimLeft(space, s);
    TrimLeftIs(space, s);
    TrimRightIs(space, left);
    i := |s| - |left|;
    var r := TrimRight(space, left);
    assert left == s[i..] && r == left[..|r|];
    assert s[i..i + |r|] == s[i..][..|r|];
    forall j | i + |r| <= j < |s| ensures space(s[j]) { assert s[j] == left[j - i]; }
  }

  /** A text that is trimmed to nothing was white space throughout. */
  lemma BlankIff(s: string)
    ensures TrimSpace(s) == "" <==> forall j :: 0 <= j < |s| ==> IsSpace(s[j])
  {
    var i := TrimIs(IsSpace, s);
    var r := TrimSpace(s);
    if r == "" {
      forall j | 0 <= j < |s| ensures IsSpace(s[j]) { assert 0 <= j < i || i + |r| <= j < |s|; }
    } else {
      assert r[0] == s[i..i + |r|][0] == s[i];
    }
  }
}
