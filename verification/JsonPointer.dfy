/** JSON Pointer fragments (RFC 6901, sections 3 to 6) as the reference resolver reads them. */
module JsonPointer {

  /** `s.replace(/xy/g, r)` for a two-character pattern. */
  function ReplacePair(s: string, x: char, y: char, r: char): string {
    if |s| < 2 then s
    else if s[0] == x && s[1] == y then [r] + ReplacePair(s[2..], x, y, r)
    else [s[0]] + ReplacePair(s[1..], x, y, r)
  }

  /** All `~1` first, then all `~0`. */
  function DecodeToken(token: string): string {
    ReplacePair(ReplacePair(token, '~', '1', '/'), '~', '0', '~')
  }

  /** One pass from the left that reads each escape once. */
  function DecodeOnce(token: string): string {
    if |token| < 2 then token
    else if token[0] == '~' && token[1] == '1' then ['/'] + DecodeOnce(token[2..])
    else if token[0] == '~' && token[1] == '0' then ['~'] + DecodeOnce(token[2..])
    else [token[0]] + DecodeOnce(token[1..])
  }

  lemma {:induction false} ReplacePairHead(s: string, x: char, y: char, r: char)
    requires x != y && r != y
    ensures (ReplacePair(s, x, y, r) == []) <==> (s == [])
    ensures |s| >= 1 && s[0] != x ==> ReplacePair(s, x, y, r)[0] == s[0]
    ensures |s| >= 1 && s[0] == x ==> ReplacePair(s, x, y, r)[0] in {x, r}
    ensures |s| >= 1 && ReplacePair(s, x, y, r)[0] == '0' && r != '0' ==> s[0] == '0'
  {
  }

  lemma {:induction false} SecondPass(c: char, rest: string)
    requires c != '~' || rest == [] || rest[0] != '0'
    ensures ReplacePair([c] + rest, '~', '0', '~') == [c] + ReplacePair(rest, '~', '0', '~')
  {
    if rest != [] { assert ([c] + rest)[1..] == rest; }
  }

  /** The two replacements in this order decode exactly as one pass does, on every string. */
  lemma {:induction false} TwoPassesDecodeLikeOne(token: string)
    ensures DecodeToken(token) == DecodeOnce(token)
  {
    if |token| >= 2 {
      var first := ReplacePair(token, '~', '1', '/');
      if token[0] == '~' && token[1] == '1' {
        TwoPassesDecodeLikeOne(token[2..]);
        SecondPass('/', ReplacePair(token[2..], '~', '1', '/'));
      } else if token[0] == '~' && token[1] == '0' {
        TwoPassesDecodeLikeOne(token[2..]);
        var rest := ReplacePair(token[2..], '~', '1', '/');
        assert ReplacePair(token[1..], '~', '1', '/') == ['0'] + rest by {
          if |token| == 2 { assert token[2..] == [] && token[1..] == ['0']; }
          else { assert token[1..][1..] == token[2..]; }
        }
        assert first == ['~', '0'] + rest;
        assert first[2..] == rest;
      } else {
        TwoPassesDecodeLikeOne(token[1..]);
        var rest := ReplacePair(token[1..], '~', '1', '/');
        ReplacePairHead(token[1..], '~', '1', '/');
        SecondPass(token[0], rest);
      }
    }
  }

  /** The standard escaping: `~` becomes `~0`, then `/` becomes `~1`. */
  function Escape(s: string): string {
    if s == [] then []
    else (if s[0] == '~' then "~0" else if s[0] == '/' then "~1" else [s[0]]) + Escape(s[1..])
  }

  lemma {:induction false} DecodeInvertsEscape(s: string)
    ensures DecodeToken(Escape(s)) == s
    ensures '/' !in Escape(s)
  {
    DecodeOnceInvertsEscape(s);
    TwoPassesDecodeLikeOne(Escape(s));
  }

  lemma {:induction false} DecodeOnceInvertsEscape(s: string)
    ensures DecodeOnce(Escape(s)) == s
    ensures '/' !in Escape(s)
  {
    if s != [] {
      DecodeOnceInvertsEscape(s[1..]);
      var rest := Escape(s[1..]);
      if s[0] == '~' || s[0] == '/' {
        assert Escape(s)[2..] == rest;
      } else {
        assert Escape(s)[1..] == rest;
        assert |rest| == 0 ==> s[1..] == [];
      }
    }
  }

  /** `s.split("/")`. */
  function Split(s: string): (parts: seq<string>)
    ensures |parts| >= 1
  {
    if s == [] then [[]]
    else if s[0] == '/' then [[]] + Split(s[1..])
    else var rest := Split(s[1..]); [[s[0]] + rest[0]] + rest[1..]
  }

  lemma {:induction false} SplitAtSlash(head: string, tail: string)
    requires '/' !in head
    ensures Split(head + ['/'] + tail) == [head] + Split(tail)
  {
    var s := head + ['/'] + tail;
    if head == [] {
      assert s[1..] == tail;
    } else {
      assert s[1..] == head[1..] + ['/'] + tail;
      SplitAtSlash(head[1..], tail);
      assert [head[0]] + head[1..] == head;
      assert ([head[1..]] + Split(tail))[1..] == Split(tail);
    }
  }

  lemma {:induction false} SplitWithoutSlash(s: string)
    requires '/' !in s
    ensures Split(s) == [s]
  {
    if s != [] {
      SplitWithoutSlash(s[1..]);
      assert [s[0]] + s[1..] == s;
    }
  }

  predicate IsLocal(ref: string) {
    |ref| >= 2 && ref[0] == '#' && ref[1] == '/'
  }

  /** The decoded reference tokens of a `#/…` reference. */
  function Tokens(ref: string): seq<string>
    requires IsLocal(ref)
  {
    var parts := Split(ref[2..]);
    seq(|parts|, i requires 0 <= i < |parts| => DecodeToken(parts[i]))
  }

  /** The reference to the value reached by a list of keys. */
  function Pointer(keys: seq<string>): (ref: string)
    requires keys != []
    ensures IsLocal(ref)
  {
    "#/" + Joined(keys)
  }

  function Joined(keys: seq<string>): string
    requires keys != []
  {
    Escape(keys[0]) + (if |keys| == 1 then "" else "/" + Joined(keys[1..]))
  }

  lemma {:induction false} SplitJoined(keys: seq<string>)
    requires keys != []
    ensures Split(Joined(keys)) == seq(|keys|, i requires 0 <= i < |keys| => Escape(keys[i]))
  {
    DecodeInvertsEscape(keys[0]);
    if |keys| == 1 {
      assert Joined(keys) == Escape(keys[0]);
      SplitWithoutSlash(Escape(keys[0]));
    } else {
      SplitJoined(keys[1..]);
      SplitAtSlash(Escape(keys[0]), Joined(keys[1..]));
      assert Joined(keys) == Escape(keys[0]) + ['/'] + Joined(keys[1..]);
    }
  }

  /** Every list of keys survives being written as a reference and read back. */
  lemma TokensInvertPointer(keys: seq<string>)
    requires keys != []
    ensures Tokens(Pointer(keys)) == keys
  {
    SplitJoined(keys);
    assert Pointer(keys)[2..] == Joined(keys);
    forall i | 0 <= i < |keys| { DecodeInvertsEscape(keys[i]); }
  }
}
