/** The JavaScript string primitives the application relies on: `trim`, the `\s`
    class of regular expressions, `split` on one character, `join`, and
    `toLowerCase` (ASCII letters only). */
module Text {

  /** The code points `String.prototype.trim` strips and `\s` matches: the
      WhiteSpace and LineTerminator productions of ECMAScript. */
  predicate IsSpace(c: char)
  {
    c == '\t' || c == '\n' || c == '\U{000B}' || c == '\U{000C}' || c == '\r' || c == ' '
    || c == '\U{00A0}' || c == '\U{1680}' || ('\U{2000}' <= c <= '\U{200A}')
    || c == '\U{2028}' || c == '\U{2029}' || c == '\U{202F}' || c == '\U{205F}'
    || c == '\U{3000}' || c == '\U{FEFF}'
  }

  /** Only whitespace: what `trim` reduces to the empty string. */
  predicate IsBlank(s: string)
  {
    forall i :: 0 <= i < |s| ==> IsSpace(s[i])
  }

  /** Neither starts nor ends with whitespace. */
  predicate IsTrimmed(s: string)
  {
    s == [] || (!IsSpace(s[0]) && !IsSpace(s[|s| - 1]))
  }

  function TrimStart(s: string): (r: string)
    ensures |r| <= |s|
  {
    if |s| > 0 && IsSpace(s[0]) then TrimStart(s[1..]) else s
  }

  /** `TrimStart` drops a blank prefix and stops at the first character that
      is not whitespace. */
  lemma {:induction false} TrimStartSuffix(s: string)
    ensures var r := TrimStart(s);
            && r == s[|s| - |r|..] && IsBlank(s[..|s| - |r|])
            && (r == [] || !IsSpace(r[0]))
    decreases |s|
  {
    if |s| > 0 && IsSpace(s[0]) {
      TrimStartSuffix(s[1..]);
      var r := TrimStart(s[1..]);
      assert s[1..][|s| - 1 - |r|..] == s[|s| - |r|..];
      var dropped := s[..|s| - |r|];
      assert dropped == [s[0]] + s[1..][..|s| - 1 - |r|];
      BlankConcat([s[0]], s[1..][..|s| - 1 - |r|]);
    } else {
      assert s[..0] == [];
    }
  }

  function TrimEnd(s: string): (r: string)
    ensures |r| <= |s|
  {
    if |s| > 0 && IsSpace(s[|s| - 1]) then TrimEnd(s[..|s| - 1]) else s
  }

  /** `TrimEnd` drops a blank suffix and stops at the last character that is
      not whitespace. */
  lemma {:induction false} TrimEndPrefix(s: string)
    ensures var r := TrimEnd(s);
            && r == s[..|r|] && IsBlank(s[|r|..])
            && (r == [] || !IsSpace(r[|r| - 1]))
    decreases |s|
  {
    if |s| > 0 && IsSpace(s[|s| - 1]) {
      var init := s[..|s| - 1];
      TrimEndPrefix(init);
      var r := TrimEnd(init);
      assert init[..|r|] == s[..|r|];
      assert s[|r|..] == init[|r|..] + [s[|s| - 1]];
      BlankConcat(init[|r|..], [s[|s| - 1]]);
    } else {
      assert s[|s|..] == [];
    }
  }

  lemma BlankConcat(a: string, b: string)
    requires IsBlank(a) && IsBlank(b)
    ensures IsBlank(a + b)
  {
    forall i | 0 <= i < |a + b| ensures IsSpace((a + b)[i]) {
      if i < |a| { assert (a + b)[i] == a[i]; } else { assert (a + b)[i] == b[i - |a|]; }
    }
  }

  /** `String.prototype.trim`: drop leading and trailing whitespace. */
  function Trim(s: string): (r: string)
    ensures IsTrimmed(r)
    ensures r == [] <==> IsBlank(s)
    ensures |r| <= |s|
  {
    var t := TrimStart(s);
    TrimStartSuffix(s);
    var r := TrimEnd(t);
    TrimEndPrefix(t);
    assert r != [] ==> r[0] == t[0];
    assert t == [] ==> s[..|s| - |t|] == s;
    assert t != [] ==> !IsSpace(s[|s| - |t|]);
    r
  }

  lemma {:induction false} TrimStartPadding(p: string, y: string)
    requires IsBlank(p)
    requires y == [] || !IsSpace(y[0])
    ensures TrimStart(p + y) == y
    decreases |p|
  {
    if p == [] {
      assert p + y == y;
    } else {
      assert (p + y)[1..] == p[1..] + y;
      TrimStartPadding(p[1..], y);
    }
  }

  lemma {:induction false} TrimEndPadding(y: string, q: string)
    requires IsBlank(q)
    requires y == [] || !IsSpace(y[|y| - 1])
    ensures TrimEnd(y + q) == y
    decreases |q|
  {
    if q == [] {
      assert y + q == y;
    } else {
      assert (y + q)[..|y + q| - 1] == y + q[..|q| - 1];
      TrimEndPadding(y, q[..|q| - 1]);
    }
  }

  /** `trim` removes exactly the blank padding around a trimmed core: Trim(s)
      is the unique x with s == p + x + q, p and q blank and x trimmed. */
  lemma TrimPadding(p: string, x: string, q: string)
    requires IsBlank(p) && IsBlank(q) && IsTrimmed(x)
    ensures Trim(p + x + q) == x
  {
    if x == [] {
      assert p + x + q == p + q;
      BlankConcat(p, q);
    } else {
      assert p + x + q == p + (x + q);
      TrimStartPadding(p, x + q);
      TrimEndPadding(x, q);
    }
  }

  /** A trimmed string is its own trim. */
  lemma TrimTrimmed(x: string)
    requires IsTrimmed(x)
    ensures Trim(x) == x
  {
    assert [] + x + [] == x;
    TrimPadding([], x, []);
  }

  /** `trim` is idempotent. */
  lemma TrimIdempotent(s: string)
    ensures Trim(Trim(s)) == Trim(s)
  {
    TrimTrimmed(Trim(s));
  }

  /** Every string is its trim with blank padding on both sides. */
  lemma TrimParts(s: string) returns (pre: string, post: string)
    ensures s == pre + Trim(s) + post
    ensures IsBlank(pre) && IsBlank(post)
  {
    var t := TrimStart(s);
    TrimStartSuffix(s);
    TrimEndPrefix(t);
    pre := s[..|s| - |t|];
    post := t[|TrimEnd(t)|..];
    assert s == pre + t;
    assert t == TrimEnd(t) + post;
  }

  /** `trim` never introduces a character the input did not have. */
  lemma TrimKeepsAbsent(s: string, c: char)
    requires c !in s
    ensures c !in Trim(s)
  {
    var pre, post := TrimParts(s);
  }

  lemma {:induction false} TrimStartBlankPrefix(p: string, s: string)
    requires IsBlank(p)
    ensures TrimStart(p + s) == TrimStart(s)
    decreases |p|
  {
    if p != [] {
      assert (p + s)[1..] == p[1..] + s;
      TrimStartBlankPrefix(p[1..], s);
    } else {
      assert p + s == s;
    }
  }

  /** Blank characters in front of a string do not survive `trim`. */
  lemma TrimBlankPrefix(p: string, s: string)
    requires IsBlank(p)
    ensures Trim(p + s) == Trim(s)
  {
    TrimStartBlankPrefix(p, s);
  }

  /** Blank characters on either side of a string do not survive `trim`. */
  lemma TrimBlankPadding(p: string, v: string, q: string)
    requires IsBlank(p) && IsBlank(q)
    ensures Trim(p + v + q) == Trim(v)
  {
    var pre, post := TrimParts(v);
    BlankConcat(p, pre);
    BlankConcat(post, q);
    Regroup(p, pre, Trim(v), post, q);
    TrimPadding(p + pre, Trim(v), post + q);
  }

  lemma Regroup(a: string, b: string, x: string, c: string, d: string)
    ensures a + (b + x + c) + d == (a + b) + x + (c + d)
  {
  }

  /** ASCII `toLowerCase` of one character. */
  function LowerChar(c: char): (r: char)
    ensures IsSpace(r) <==> IsSpace(c)
    ensures r != c ==> 'A' <= c <= 'Z'
    ensures !('A' <= r <= 'Z')
  {
    if 'A' <= c <= 'Z' then (c as int + 32) as char else c
  }

  /** `String.prototype.toLowerCase`, restricted to ASCII letters. */
  function ToLower(s: string): (r: string)
    ensures |r| == |s|
    ensures forall i :: 0 <= i < |s| ==> r[i] == LowerChar(s[i])
  {
    seq(|s|, i requires 0 <= i < |s| => LowerChar(s[i]))
  }

  lemma {:induction false} TrimStartToLower(s: string)
    ensures TrimStart(ToLower(s)) == ToLower(TrimStart(s))
    decreases |s|
  {
    if s != [] {
      assert ToLower(s)[1..] == ToLower(s[1..]);
      TrimStartToLower(s[1..]);
    }
  }

  lemma {:induction false} TrimEndToLower(s: string)
    ensures TrimEnd(ToLower(s)) == ToLower(TrimEnd(s))
    decreases |s|
  {
    if s != [] {
      assert ToLower(s)[..|s| - 1] == ToLower(s[..|s| - 1]);
      TrimEndToLower(s[..|s| - 1]);
    }
  }

  /** Lower-casing commutes with `trim`, since no letter is whitespace. */
  lemma TrimToLower(s: string)
    ensures Trim(ToLower(s)) == ToLower(Trim(s))
  {
    TrimStartToLower(s);
    TrimEndToLower(TrimStart(s));
  }

  /** JavaScript's `s.split(sep)` for a one-character separator: the pieces
      between separators, in order; an empty string splits into one empty piece. */
  function Split(s: string, sep: char): (r: seq<string>)
    ensures |r| >= 1
    ensures forall i :: 0 <= i < |r| ==> sep !in r[i]
  {
    if s == [] then [[]]
    else
      var rest := Split(s[1..], sep);
      if s[0] == sep then [[]] + rest
      else [[s[0]] + rest[0]] + rest[1..]
  }

  /** Joining the pieces of a split with the separator gives back the
      string: `split` loses nothing. */
  lemma {:induction false} JoinSplit(s: string, sep: char)
    ensures Join(Split(s, sep), [sep]) == s
    decreases |s|
  {
    if s != [] {
      var rest := Split(s[1..], sep);
      JoinSplit(s[1..], sep);
      assert [s[0]] + s[1..] == s;
      if s[0] != sep {
        assert |rest| >= 2 ==> Join(rest, [sep]) == rest[0] + [sep] + Join(rest[1..], [sep]);
        assert ([[s[0]] + rest[0]] + rest[1..])[1..] == rest[1..];
      }
    }
  }

  /** `Array.prototype.join(sep)` over strings. */
  function Join(parts: seq<string>, sep: string): string
  {
    if |parts| == 0 then []
    else if |parts| == 1 then parts[0]
    else parts[0] + sep + Join(parts[1..], sep)
  }

  /** Splitting a joined list recovers the list when no part holds the separator:
      `split` is the inverse of `join`. */
  lemma {:induction false} SplitJoin(parts: seq<string>, sep: char)
    requires |parts| >= 1
    requires forall i :: 0 <= i < |parts| ==> sep !in parts[i]
    ensures Split(Join(parts, [sep]), sep) == parts
    decreases |parts|, |parts[0]|
  {
    var x := parts[0];
    if |parts| == 1 {
      SplitNoSeparator(x, sep);
    } else if x == [] {
      var tail := Join(parts[1..], [sep]);
      assert Join(parts, [sep]) == [sep] + tail;
      assert ([sep] + tail)[1..] == tail;
      SplitJoin(parts[1..], sep);
      assert parts == [[]] + parts[1..];
    } else {
      var s := Join(parts, [sep]);
      var shorter := [x[1..]] + parts[1..];
      assert shorter[1..] == parts[1..];
      assert Join(shorter, [sep]) == x[1..] + [sep] + Join(parts[1..], [sep]);
      assert s == [x[0]] + Join(shorter, [sep]);
      assert s[1..] == Join(shorter, [sep]);
      assert x[0] in x;
      forall i | 0 <= i < |shorter| ensures sep !in shorter[i] {
        if i == 0 {
          assert forall c :: c in x[1..] ==> c in x;
        } else {
          assert shorter[i] == parts[i];
        }
      }
      SplitJoin(shorter, sep);
      assert [x[0]] + x[1..] == x;
      assert parts == [x] + parts[1..];
    }
  }

  lemma {:induction false} SplitNoSeparator(x: string, sep: char)
    requires sep !in x
    ensures Split(x, sep) == [x]
    decreases |x|
  {
    if x != [] {
      assert x[0] in x;
      assert forall c :: c in x[1..] ==> c in x;
      SplitNoSeparator(x[1..], sep);
      assert [x[0]] + x[1..] == x;
    }
  }

  /** `parts.map(p => p.trim())`. */
  function TrimEach(parts: seq<string>): (r: seq<string>)
    ensures |r| == |parts|
    ensures forall i :: 0 <= i < |parts| ==> r[i] == Trim(parts[i])
  {
    seq(|parts|, i requires 0 <= i < |parts| => Trim(parts[i]))
  }

  lemma TrimEachKeepsAbsent(parts: seq<string>, c: char)
    requires forall i :: 0 <= i < |parts| ==> c !in parts[i]
    ensures forall i :: 0 <= i < |parts| ==> c !in TrimEach(parts)[i]
  {
    forall i | 0 <= i < |parts| ensures c !in Trim(parts[i]) {
      TrimKeepsAbsent(parts[i], c);
    }
  }

  /** Every part behind the padding. */
  function PadEach(parts: seq<string>, gap: string): (r: seq<string>)
    ensures |r| == |parts|
    ensures forall i :: 0 <= i < |parts| ==> r[i] == gap + parts[i]
  {
    if parts == [] then [] else [gap + parts[0]] + PadEach(parts[1..], gap)
  }

  /** The pieces `split` yields from a list joined with a separator followed by
      padding: the first part as it was, every later one behind the padding. */
  function PadTail(parts: seq<string>, gap: string): (r: seq<string>)
    requires |parts| >= 1
    ensures |r| == |parts| && r[0] == parts[0]
    ensures forall i :: 1 <= i < |parts| ==> r[i] == gap + parts[i]
  {
    [parts[0]] + PadEach(parts[1..], gap)
  }

  /** A separator followed by padding joins the same string as the bare
      separator between parts that carry the padding in front. */
  lemma JoinPadTail(parts: seq<string>, sep: char, gap: string)
    requires |parts| >= 1
    ensures Join(parts, [sep] + gap) == Join(PadTail(parts, gap), [sep])
  {
    assert [parts[0]] + parts[1..] == parts;
    JoinPadEach(parts[0], parts[1..], sep, gap);
  }

  lemma {:induction false} JoinPadEach(x: string, ys: seq<string>, sep: char, gap: string)
    ensures Join([x] + ys, [sep] + gap) == Join([x] + PadEach(ys, gap), [sep])
    decreases |ys|
  {
    if ys != [] {
      var tail := PadEach(ys[1..], gap);
      JoinPadEach(ys[0], ys[1..], sep, gap);
      assert [ys[0]] + ys[1..] == ys;
      JoinFront(x, ys, [sep] + gap);
      assert PadEach(ys, gap) == [gap + ys[0]] + tail;
      JoinFront(x, [gap + ys[0]] + tail, [sep]);
      JoinGapFront(ys[0], tail, [sep], gap);
      Regroup3(x, [sep], gap, Join([ys[0]] + tail, [sep]));
    }
  }

  lemma Regroup3(a: string, b: string, c: string, d: string)
    ensures a + (b + c) + d == a + b + (c + d)
  {
  }

  /** A part in front of a non-empty list is joined with one separator. */
  lemma JoinFront(x: string, xs: seq<string>, sep: string)
    requires |xs| >= 1
    ensures Join([x] + xs, sep) == x + sep + Join(xs, sep)
  {
    assert ([x] + xs)[1..] == xs;
  }

  /** Padding the first part pads the whole join. */
  lemma JoinGapFront(x: string, xs: seq<string>, sep: string, gap: string)
    ensures Join([gap + x] + xs, sep) == gap + Join([x] + xs, sep)
  {
    if xs != [] {
      JoinFront(gap + x, xs, sep);
      JoinFront(x, xs, sep);
    }
  }

  lemma BlankLacks(gap: string, c: char)
    requires IsBlank(gap) && !IsSpace(c)
    ensures c !in gap
  {
  }

  lemma TrimPadTail(parts: seq<string>, gap: string)
    requires |parts| >= 1 && IsBlank(gap)
    requires forall i :: 0 <= i < |parts| ==> IsTrimmed(parts[i])
    ensures TrimEach(PadTail(parts, gap)) == parts
  {
    var padded := PadTail(parts, gap);
    forall i | 0 <= i < |parts| ensures Trim(padded[i]) == parts[i] {
      TrimTrimmed(parts[i]);
      if i > 0 {
        TrimBlankPrefix(gap, parts[i]);
      }
    }
  }

  /** Splitting on `sep` and trimming every piece undoes joining with `sep`
      plus blank padding, for parts that are trimmed and hold no `sep`. */
  lemma SplitTrimJoin(parts: seq<string>, sep: char, gap: string)
    requires |parts| >= 1
    requires !IsSpace(sep) && IsBlank(gap)
    requires forall i :: 0 <= i < |parts| ==> sep !in parts[i] && IsTrimmed(parts[i])
    ensures TrimEach(Split(Join(parts, [sep] + gap), sep)) == parts
  {
    var padded := PadTail(parts, gap);
    JoinPadTail(parts, sep, gap);
    BlankLacks(gap, sep);
    PadTailLacks(parts, gap, sep);
    SplitJoin(padded, sep);
    TrimPadTail(parts, gap);
  }

  lemma PadTailLacks(parts: seq<string>, gap: string, c: char)
    requires |parts| >= 1 && c !in gap
    requires forall i :: 0 <= i < |parts| ==> c !in parts[i]
    ensures forall i :: 0 <= i < |parts| ==> c !in PadTail(parts, gap)[i]
  {
  }
}
