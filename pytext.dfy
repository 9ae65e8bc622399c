/** The few Python string operations the utilities rely on, defined on
    `seq<char>`: `str.split('.')`, `str.upper()`, prefix and suffix tests,
    and `os.path.join` for two components on a POSIX system. */
module PyText {

  /** `s.startswith(p)`. */
  predicate StartsWith(s: string, p: string) {
    p <= s
  }

  /** `s.endswith(e)`. */
  predicate EndsWith(s: string, e: string) {
    |e| <= |s| && s[|s| - |e|..] == e
  }

  /** `s.split('.')`: the pieces of `s` between dots, always at least one,
      empty pieces kept (`"a..b"` gives three pieces, `""` gives `[""]`). */
  function Split(s: string): (parts: seq<string>)
    ensures |parts| >= 1
    ensures forall i :: 0 <= i < |parts| ==> '.' !in parts[i]
  {
    if s == [] then [""]
    else if s[0] == '.' then [""] + Split(s[1..])
    else
      var rest := Split(s[1..]);
      [[s[0]] + rest[0]] + rest[1..]
  }

  /** `'.'.join(parts)`: the inverse of `Split`. */
  function JoinDots(parts: seq<string>): string
    requires |parts| >= 1
  {
    if |parts| == 1 then parts[0] else parts[0] + "." + JoinDots(parts[1..])
  }

  /** Splitting and joining again gives back the original text. */
  lemma {:induction false} JoinSplit(s: string)
    ensures JoinDots(Split(s)) == s
  {
    if s == [] {
    } else if s[0] == '.' {
      JoinSplit(s[1..]);
      var rest := Split(s[1..]);
      assert Split(s) == [""] + rest;
      assert Split(s)[1..] == rest;
    } else {
      JoinSplit(s[1..]);
      var rest := Split(s[1..]);
      assert Split(s)[1..] == rest[1..];
      if |rest| == 1 {
      } else {
        assert JoinDots(rest) == rest[0] + "." + JoinDots(rest[1..]);
      }
    }
  }

  /** Joining dot-free pieces and splitting again gives back the pieces. */
  lemma {:induction false} SplitJoin(parts: seq<string>)
    requires |parts| >= 1
    requires forall i :: 0 <= i < |parts| ==> '.' !in parts[i]
    ensures Split(JoinDots(parts)) == parts
  {
    if |parts| == 1 {
      SplitDotFree(parts[0]);
    } else {
      SplitJoin(parts[1..]);
      SplitAppend(parts[0], JoinDots(parts[1..]));
      assert [parts[0]] + parts[1..] == parts;
    }
  }

  /** Text without a dot splits into itself alone. */
  lemma {:induction false} SplitDotFree(s: string)
    requires '.' !in s
    ensures Split(s) == [s]
  {
    if s != [] {
      assert '.' !in s[1..] by {
        forall i | 0 <= i < |s[1..]| ensures s[1..][i] != '.' {
          assert s[1..][i] == s[i + 1];
        }
      }
      SplitDotFree(s[1..]);
      assert [s[0]] + s[1..] == s;
    }
  }

  /** A dot-free head followed by a dot splits off as the first piece. */
  lemma {:induction false} SplitAppend(p: string, t: string)
    requires '.' !in p
    ensures Split(p + "." + t) == [p] + Split(t)
  {
    if p == [] {
      assert p + "." + t == ['.'] + t;
      assert (['.'] + t)[1..] == t;
    } else {
      var s := p + "." + t;
      assert s[0] == p[0];
      assert s[1..] == p[1..] + "." + t;
      assert '.' !in p[1..] by {
        forall i | 0 <= i < |p[1..]| ensures p[1..][i] != '.' {
          assert p[1..][i] == p[i + 1];
        }
      }
      SplitAppend(p[1..], t);
      assert [p[0]] + p[1..] == p;
    }
  }

  /** `Split` yields a single piece exactly when the text has no dot. */
  lemma {:induction false} SplitSingle(s: string)
    ensures |Split(s)| == 1 <==> '.' !in s
  {
    if s != [] {
      SplitSingle(s[1..]);
      if s[0] != '.' {
        assert forall c :: c in s <==> c == s[0] || c in s[1..];
      }
    }
  }

  /** When the tail of `s` splits into several pieces, the first
      character of `s` only changes the first piece: the last piece of `s`
      is the last piece of its tail. */
  lemma SplitKeepsLast(s: string)
    requires s != [] && |Split(s[1..])| > 1
    ensures Split(s)[|Split(s)| - 1] == Split(s[1..])[|Split(s[1..])| - 1]
  {
    var rest := Split(s[1..]);
    var n := |rest|;
    if s[0] == '.' {
      var parts := [""] + rest;
      assert Split(s) == parts;
      assert parts[n] == rest[n - 1];
    } else {
      var parts := [[s[0]] + rest[0]] + rest[1..];
      assert Split(s) == parts;
      assert parts[n - 1] == rest[1..][n - 2] == rest[n - 1];
    }
  }

  /** For text with a dot, the last piece of the split is what follows the
      last dot. */
  lemma {:induction false} LastPieceAfterDot(s: string)
    requires '.' in s
    ensures var parts := Split(s); var t := parts[|parts| - 1];
      |t| < |s| && s[|s| - |t| - 1] == '.' && s[|s| - |t|..] == t
  {
    var tail := s[1..];
    assert forall c :: c in s <==> c == s[0] || c in tail;
    if '.' in tail {
      LastPieceAfterDot(tail);
      SplitSingle(tail);
      SplitKeepsLast(s);
      var rest := Split(tail);
      var t := rest[|rest| - 1];
      assert s[|s| - |t|..] == tail[|tail| - |t|..];
      assert s[|s| - |t| - 1] == tail[|tail| - |t| - 1];
    } else {
      SplitDotFree(tail);
      assert Split(s) == [""] + [tail];
      assert s[|s| - |tail|..] == tail;
    }
  }

  /** `s.split('.')[-1]`: the dot-free tail of `s`, which is all of `s`
      when it has no dot, and otherwise what follows its last dot. */
  function LastSegment(s: string): (r: string)
    ensures '.' !in r
    ensures EndsWith(s, r)
    ensures '.' !in s ==> r == s
    ensures '.' in s ==> |r| < |s| && s[|s| - |r| - 1] == '.'
  {
    var parts := Split(s);
    if '.' in s then
      LastPieceAfterDot(s);
      parts[|parts| - 1]
    else
      SplitDotFree(s);
      parts[|parts| - 1]
  }

  /** The upper-case form of one character, as Python's `str.upper` gives
      it for every character whose upper case is a single ASCII letter:
      `a`..`z`, the dotless i (U+0131) and the long s (U+017F). */
  function UpperChar(c: char): (u: char)
    ensures 'A' <= u <= 'Z' ==> ('a' <= c <= 'z' || 'A' <= c <= 'Z' || c == 'ı' || c == 'ſ')
    ensures 'a' <= c <= 'z' ==> 'A' <= u <= 'Z' && u as int == c as int - 32
  {
    if 'a' <= c <= 'z' then (c as int - 32) as char
    else if c == 'ı' then 'I'
    else if c == 'ſ' then 'S'
    else c
  }

  /** `s.upper()`, character by character. */
  function Upper(s: string): (u: string)
    ensures |u| == |s|
    ensures forall i :: 0 <= i < |s| ==> u[i] == UpperChar(s[i])
  {
    seq(|s|, i requires 0 <= i < |s| => UpperChar(s[i]))
  }

  /** `os.path.join(a, b)` on POSIX: an absolute `b` replaces `a`; otherwise
      a separator is put between them unless `a` is empty or ends in one. */
  function PathJoin(a: string, b: string): (p: string)
    ensures EndsWith(p, b)
    ensures StartsWith(b, "/") ==> p == b
    ensures !StartsWith(b, "/") ==> StartsWith(p, a)
  {
    if StartsWith(b, "/") then b
    else if a == "" || EndsWith(a, "/") then a + b
    else a + "/" + b
  }
}
