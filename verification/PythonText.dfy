/** Python's view of white space. */
module PythonText {
  /** `c.isspace()`: what `strip` takes off at either end of a text. */
  predicate IsSpace(c: char) {
    || '\t' <= c <= '\r' || '\U{1c}' <= c <= ' ' || c == '\U{85}' || c == '\U{a0}' || c == '\U{1680}'
    || '\U{2000}' <= c <= '\U{200a}' || c == '\U{2028}' || c == '\U{2029}' || c == '\U{202f}'
    || c == '\U{205f}' || c == '\U{3000}'
  }

  /** The code points of white space. */
  lemma WhiteSpace(c: char)
    ensures IsSpace(c) <==>
            c as int in {9, 10, 11, 12, 13, 28, 29, 30, 31, 32, 133, 160, 5760, 8192, 8193, 8194, 8195, 8196, 8197,
                         8198, 8199, 8200, 8201, 8202, 8232, 8233, 8239, 8287, 12288}
  {
  }

  /** `s.strip()`. */
  function Strip(s: string): (r: string)
    ensures r == "" || (!IsSpace(r[0]) && !IsSpace(r[|r| - 1]))
    decreases |s|
  {
    if s == "" then ""
    else if IsSpace(s[0]) then Strip(s[1..])
    else if IsSpace(s[|s| - 1]) then Strip(s[..|s| - 1])
    else s
  }

  /** What `strip` leaves alone. */
  lemma StripLeaves(s: string)
    ensures Strip(s) == s <==> s == "" || (!IsSpace(s[0]) && !IsSpace(s[|s| - 1]))
  {
  }

  predicate IsBlank(s: string) {
    forall c | c in s :: IsSpace(c)
  }

  /** What `strip` takes off. */
  lemma {:induction false} StripTakesBlanks(before: string, s: string, after: string)
    requires IsBlank(before) && IsBlank(after)
    requires s == "" || (!IsSpace(s[0]) && !IsSpace(s[|s| - 1]))
    ensures Strip(before + s + after) == s
    decreases |before| + |after|
  {
    var text := before + s + after;
    if before != "" {
      assert before[0] in before && text[1..] == before[1..] + s + after;
      StripTakesBlanks(before[1..], s, after);
    } else if s == "" && after != "" {
      assert after[0] in after && text[1..] == before + s + after[1..];
      StripTakesBlanks(before, s, after[1..]);
    } else if after != "" {
      assert text[0] == s[0];
      assert after[|after| - 1] in after && text[..|text| - 1] == before + s + after[..|after| - 1];
      StripTakesBlanks(before, s, after[..|after| - 1]);
    } else {
      assert text == s;
    }
  }

  lemma {:induction false} StripIsEmptyIffBlank(s: string)
    ensures Strip(s) == "" <==> IsBlank(s)
  {
    if IsBlank(s) {
      StripTakesBlanks(s, "", "");
      assert s + "" + "" == s;
    } else {
      StripKeepsOthers(s);
    }
  }

  lemma {:induction false} StripKeepsOthers(s: string)
    requires !IsBlank(s)
    ensures Strip(s) != ""
    decreases |s|
  {
    if s == "" {
    } else if IsSpace(s[0]) {
      assert s == [s[0]] + s[1..];
      StripKeepsOthers(s[1..]);
    } else if IsSpace(s[|s| - 1]) {
      assert s == s[..|s| - 1] + [s[|s| - 1]];
      StripKeepsOthers(s[..|s| - 1]);
    }
  }
}
