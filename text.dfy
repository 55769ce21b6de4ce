/**
 * The three Python string operations the re-framer applies to what the
 * upstream sends: `str.strip()`, `str.startswith` and `str.split('\n')`, and
 * `str.join` for building the out-going events.
 */
module Text {

  /** Python's `str.isspace()` for one character: the characters `str.strip()` removes. */
  predicate IsSpace(c: char)
  {
    || c == ' ' || c == '\t' || c == '\n' || c == '\r'
    || c == '\U{b}' || c == '\U{c}'
    || ('\U{1c}' <= c <= '\U{1f}')
    || c == '\U{85}' || c == '\U{a0}' || c == '\U{1680}'
    || ('\U{2000}' <= c <= '\U{200a}')
    || c == '\U{2028}' || c == '\U{2029}' || c == '\U{202f}' || c == '\U{205f}' || c == '\U{3000}'
  }

  predicate AllSpace(s: string)
  {
    forall i :: 0 <= i < |s| ==> IsSpace(s[i])
  }

  /** Removes leading whitespace (`TrimStartShape` states what is left). */
  function TrimStart(s: string): string
  {
    if s != [] && IsSpace(s[0]) then TrimStart(s[1..]) else s
  }

  /** Removes trailing whitespace (`TrimEndShape` states what is left). */
  function TrimEnd(s: string): string
  {
    if s != [] && IsSpace(s[|s| - 1]) then TrimEnd(s[..|s| - 1]) else s
  }

  /** A non-empty string with no whitespace at either end: what `strip` leaves of a non-blank string. */
  predicate Trimmed(s: string)
  {
    s != [] && !IsSpace(s[0]) && !IsSpace(s[|s| - 1])
  }

  /** `s.strip()` */
  function Strip(s: string): string
  {
    TrimEnd(TrimStart(s))
  }

  /** `s.startswith(prefix)` */
  predicate StartsWith(s: string, prefix: string)
  {
    |prefix| <= |s| && s[..|prefix|] == prefix
  }

  /**
   * `s.split('\n')`: the pieces between newlines, in order; there is always one
   * more piece than there are newlines, so the empty string gives `[""]`.
   */
  function Split(s: string): (parts: seq<string>)
    ensures |parts| >= 1
    ensures forall i :: 0 <= i < |parts| ==> '\n' !in parts[i]
    decreases |s|
  {
    if s == [] then [[]]
    else
      var rest := Split(s[1..]);
      if s[0] == '\n' then [[]] + rest
      else [[s[0]] + rest[0]] + rest[1..]
  }

  /** `sep.join(parts)` */
  function Join(sep: string, parts: seq<string>): string
  {
    if parts == [] then []
    else if |parts| == 1 then parts[0]
    else parts[0] + sep + Join(sep, parts[1..])
  }

  /** Every piece but the last: `lines[:-1]`. */
  function AllButLast<T>(s: seq<T>): seq<T>
    requires |s| >= 1
  {
    s[..|s| - 1]
  }

  function Last<T>(s: seq<T>): T
    requires |s| >= 1
  {
    s[|s| - 1]
  }

  /** Concatenation of a sequence of strings (the chunks of a stream, in order). */
  function Concat(chunks: seq<string>): string
  {
    if chunks == [] then [] else Concat(chunks[..|chunks| - 1]) + chunks[|chunks| - 1]
  }

  // ----- strip -----

  /** What `TrimStart` keeps is a suffix, what it drops is whitespace, and it stops at a non-space. */
  lemma {:induction false} TrimStartShape(s: string)
    ensures var r := TrimStart(s);
            && |r| <= |s| && r == s[|s| - |r|..]
            && AllSpace(s[..|s| - |r|])
            && (r == [] || !IsSpace(r[0]))
    decreases |s|
  {
    if s != [] && IsSpace(s[0]) {
      TrimStartShape(s[1..]);
      var r := TrimStart(s[1..]);
      var k := |s| - |r|;
      assert s[1..][..|s| - 1 - |r|] == s[1..k];
      forall i | 0 <= i < k ensures IsSpace(s[..k][i]) {
        if i > 0 { assert s[..k][i] == s[1..k][i - 1]; }
      }
    }
  }

  /** What `TrimEnd` keeps is a prefix, what it drops is whitespace, and it stops at a non-space. */
  lemma {:induction false} TrimEndShape(s: string)
    ensures var r := TrimEnd(s);
            && |r| <= |s| && r == s[..|r|]
            && AllSpace(s[|r|..])
            && (r == [] || !IsSpace(r[|r| - 1]))
    decreases |s|
  {
    if s != [] && IsSpace(s[|s| - 1]) {
      var p := s[..|s| - 1];
      TrimEndShape(p);
      var r := TrimEnd(p);
      assert p[..|r|] == s[..|r|];
      forall i | |r| <= i < |s| ensures IsSpace(s[i]) {
        if i < |s| - 1 { assert p[|r|..][i - |r|] == s[i]; }
      }
    }
  }

  /**
   * `strip` removes exactly the whitespace at both ends: the result is a slice
   * of `s` surrounded by whitespace and is empty or starts and ends with a
   * non-space.
   */
  lemma StripShape(s: string)
    ensures var r := Strip(s);
            exists i, j :: 0 <= i <= j <= |s| && r == s[i..j] && AllSpace(s[..i]) && AllSpace(s[j..])
                           && (r == [] || (!IsSpace(r[0]) && !IsSpace(r[|r| - 1])))
  {
    TrimStartShape(s);
    var t := TrimStart(s);
    TrimEndShape(t);
    var r := TrimEnd(t);
    var i := |s| - |t|;
    var j := i + |r|;
    assert r == s[i..j];
    assert AllSpace(s[j..]) by {
      forall k | j <= k < |s| ensures IsSpace(s[k]) { assert s[k] == t[|r|..][k - j]; }
    }
    if r != [] {
      assert r[0] == t[0];
    }
  }

  lemma {:induction false} TrimStartDropsSpaces(a: string, t: string)
    requires AllSpace(a)
    requires t == [] || !IsSpace(t[0])
    ensures TrimStart(a + t) == t
    decreases |a|
  {
    if a != [] {
      assert (a + t)[1..] == a[1..] + t;
      TrimStartDropsSpaces(a[1..], t);
    }
  }

  lemma {:induction false} TrimEndDropsSpaces(t: string, b: string)
    requires AllSpace(b)
    requires t == [] || !IsSpace(t[|t| - 1])
    ensures TrimEnd(t + b) == t
    decreases |b|
  {
    if b != [] {
      assert (t + b)[..|t + b| - 1] == t + b[..|b| - 1];
      TrimEndDropsSpaces(t, b[..|b| - 1]);
    } else {
      assert t + b == t;
    }
  }

  /**
   * `strip` removes exactly the surrounding whitespace: whatever whitespace
   * surrounds a string that neither starts nor ends with a space, stripping
   * gives that string back.
   */
  lemma StripSurrounding(a: string, m: string, b: string)
    requires AllSpace(a) && AllSpace(b)
    requires m == [] || (!IsSpace(m[0]) && !IsSpace(m[|m| - 1]))
    ensures Strip(a + m + b) == m
  {
    if m == [] {
      assert a + m + b == (a + b) + [];
      assert AllSpace(a + b) by {
        forall i | 0 <= i < |a + b| ensures IsSpace((a + b)[i]) {
          if i < |a| { assert (a + b)[i] == a[i]; } else { assert (a + b)[i] == b[i - |a|]; }
        }
      }
      TrimStartDropsSpaces(a + b, []);
    } else {
      assert a + m + b == a + (m + b);
      TrimStartDropsSpaces(a, m + b);
      TrimEndDropsSpaces(m, b);
    }
  }

  /** Stripping twice is stripping once. */
  lemma StripIdempotent(s: string)
    ensures Strip(Strip(s)) == Strip(s)
  {
    var m := Strip(s);
    StripShape(s);
    assert m == [] + m + [];
    StripSurrounding([], m, []);
  }

  // ----- split and join -----

  /** A string without a newline splits into itself. */
  lemma {:induction false} SplitNoNewline(s: string)
    requires '\n' !in s
    ensures Split(s) == [s]
    decreases |s|
  {
    if s != [] {
      assert '\n' !in s[1..] by {
        forall i | 0 <= i < |s| - 1 ensures s[1..][i] != '\n' { assert s[1..][i] == s[i + 1]; }
      }
      SplitNoNewline(s[1..]);
      assert [s[0]] + s[1..] == s;
    }
  }

  /** The defining step of `Split`, for a string given as its first character and the rest. */
  lemma SplitCons(c: char, t: string)
    ensures c == '\n' ==> Split([c] + t) == [[]] + Split(t)
    ensures c != '\n' ==> Split([c] + t) == [[c] + Split(t)[0]] + Split(t)[1..]
  {
    assert ([c] + t)[1..] == t;
  }

  /**
   * Splitting the concatenation of `x` and `y`: the complete pieces of `x`,
   * then the split of `x`'s unterminated tail continued by `y`.  This is what
   * makes line framing independent of where the chunk boundaries fall.
   */
  lemma {:induction false} SplitAppend(x: string, y: string)
    ensures Split(x + y) == AllButLast(Split(x)) + Split(Last(Split(x)) + y)
    decreases |x|
  {
    if x == [] {
      assert x + y == Last(Split(x)) + y;
    } else {
      var c, t := x[0], x[1..];
      assert x == [c] + t;
      assert x + y == [c] + (t + y);
      SplitAppend(t, y);
      SplitCons(c, t);
      SplitCons(c, t + y);
      if c != '\n' {
        SplitAppendStep(c, t, y);
      }
    }
  }

  /** The step of `SplitAppend` for a first character that is not a newline. */
  lemma SplitAppendStep(c: char, t: string, y: string)
    requires c != '\n'
    requires Split(t + y) == AllButLast(Split(t)) + Split(Last(Split(t)) + y)
    ensures Split([c] + t + y) == AllButLast(Split([c] + t)) + Split(Last(Split([c] + t)) + y)
  {
    var ts := Split(t);
    var r := Split(t + y);
    assert [c] + t + y == [c] + (t + y);
    SplitCons(c, t);
    SplitCons(c, t + y);
    if |ts| == 1 {
      var u := Last(ts) + y;
      assert r == Split(u);
      assert [c] + Last(ts) + y == [c] + u;
      SplitCons(c, u);
    } else {
      assert r[0] == ts[0];
      assert r[1..] == AllButLast(ts)[1..] + Split(Last(ts) + y);
    }
  }

  /** `SplitAppend` read as "complete lines" and "the unterminated rest". */
  lemma SplitSnoc(x: string, y: string)
    ensures var m := Split(Last(Split(x)) + y);
            && AllButLast(Split(x + y)) == AllButLast(Split(x)) + AllButLast(m)
            && Last(Split(x + y)) == Last(m)
  {
    SplitAppend(x, y);
  }

  /** A newline-free piece followed by a newline contributes exactly that piece. */
  lemma {:induction false} SplitAfterPiece(p: string, y: string)
    requires '\n' !in p
    ensures Split(p + "\n" + y) == [p] + Split(y)
    decreases |p|
  {
    if p == [] {
      assert p + "\n" + y == "\n" + y;
      assert ("\n" + y)[1..] == y;
    } else {
      var s := p + "\n" + y;
      assert s[1..] == p[1..] + "\n" + y;
      assert '\n' !in p[1..] by {
        forall i | 0 <= i < |p| - 1 ensures p[1..][i] != '\n' { assert p[1..][i] == p[i + 1]; }
      }
      SplitAfterPiece(p[1..], y);
      assert [p[0]] + p[1..] == p;
    }
  }

  /** Joining the pieces with newlines gives back the string: nothing is lost by splitting. */
  lemma {:induction false} JoinSplit(s: string)
    ensures Join("\n", Split(s)) == s
    decreases |s|
  {
    if s != [] {
      var rest := Split(s[1..]);
      JoinSplit(s[1..]);
      if s[0] == '\n' {
        assert Split(s) == [[]] + rest;
        assert (Split(s))[1..] == rest;
      } else {
        var parts := [[s[0]] + rest[0]] + rest[1..];
        assert Split(s) == parts;
        if |rest| == 1 {
          assert Join("\n", parts) == [s[0]] + rest[0];
        } else {
          assert parts[1..] == rest[1..];
          assert Join("\n", rest) == rest[0] + "\n" + Join("\n", rest[1..]);
        }
      }
    }
  }

  /** Splitting newline-free pieces joined by newlines gives the pieces back. */
  lemma {:induction false} SplitJoin(parts: seq<string>)
    requires |parts| >= 1
    requires forall i :: 0 <= i < |parts| ==> '\n' !in parts[i]
    ensures Split(Join("\n", parts)) == parts
    decreases |parts|
  {
    if |parts| == 1 {
      SplitNoNewline(parts[0]);
    } else {
      SplitJoin(parts[1..]);
      SplitAfterPiece(parts[0], Join("\n", parts[1..]));
      assert [parts[0]] + parts[1..] == parts;
    }
  }
}
