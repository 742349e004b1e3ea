/** The parts of Go's `strings` package that the exporter relies on, over
    sequences of runes: HasPrefix/HasSuffix, TrimPrefix/TrimSuffix, Split and
    Join with a one-rune separator, and ReplaceAll with a non-empty pattern. */
module GoStrings {

  predicate HasPrefix(s: string, prefix: string) {
    |prefix| <= |s| && s[..|prefix|] == prefix
  }

  predicate HasSuffix(s: string, suffix: string) {
    |suffix| <= |s| && s[|s| - |suffix|..] == suffix
  }

  /** strings.TrimPrefix: removes ONE leading occurrence of `prefix`, if any. */
  function TrimPrefix(s: string, prefix: string): (r: string)
    ensures HasPrefix(s, prefix) ==> s == prefix + r
    ensures !HasPrefix(s, prefix) ==> r == s
  {
    if HasPrefix(s, prefix) then s[|prefix|..] else s
  }

  /** strings.TrimSuffix: removes ONE trailing occurrence of `suffix`, if any. */
  function TrimSuffix(s: string, suffix: string): (r: string)
    ensures HasSuffix(s, suffix) ==> s == r + suffix
    ensures !HasSuffix(s, suffix) ==> r == s
  {
    if HasSuffix(s, suffix) then s[..|s| - |suffix|] else s
  }

  /** Number of occurrences of `c` in `s`. */
  function Count(s: string, c: char): nat {
    if |s| == 0 then 0 else (if s[0] == c then 1 else 0) + Count(s[1..], c)
  }

  /** strings.Split(s, string(sep)): the pieces between separators. There is
      always at least one piece; Split("", sep) is [""]. */
  function Split(s: string, sep: char): (parts: seq<string>)
    ensures |parts| >= 1
    ensures |parts| == Count(s, sep) + 1
    decreases |s|
  {
    if |s| == 0 then [""]
    else
      var rest := Split(s[1..], sep);
      if s[0] == sep then [""] + rest
      else [[s[0]] + rest[0]] + rest[1..]
  }

  /** strings.Join(parts, string(sep)). */
  function Join(parts: seq<string>, sep: char): string {
    if |parts| == 0 then ""
    else if |parts| == 1 then parts[0]
    else parts[0] + [sep] + Join(parts[1..], sep)
  }

  /** strings.ReplaceAll for a non-empty pattern: leftmost, non-overlapping
      occurrences of `pattern` are replaced by `replacement`, scanning left to right. */
  function ReplaceAll(s: string, pattern: string, replacement: string): string
    requires |pattern| > 0
    decreases |s|
  {
    if |s| < |pattern| then s
    else if s[..|pattern|] == pattern then replacement + ReplaceAll(s[|pattern|..], pattern, replacement)
    else [s[0]] + ReplaceAll(s[1..], pattern, replacement)
  }

  /** No piece produced by Split contains the separator. */
  lemma {:induction false} SplitPiecesFree(s: string, sep: char)
    ensures forall k :: 0 <= k < |Split(s, sep)| ==> sep !in Split(s, sep)[k]
    decreases |s|
  {
    if |s| > 0 {
      SplitPiecesFree(s[1..], sep);
      var rest := Split(s[1..], sep);
      if s[0] != sep {
        assert sep !in [s[0]] + rest[0];
      }
    }
  }

  /** Every rune of a piece produced by Split is a rune of the input. */
  lemma {:induction false} SplitPiecesWithin(s: string, sep: char)
    ensures forall k, c :: 0 <= k < |Split(s, sep)| && c in Split(s, sep)[k] ==> c in s
    decreases |s|
  {
    if |s| > 0 {
      SplitPiecesWithin(s[1..], sep);
      var rest := Split(s[1..], sep);
      forall k, c | 0 <= k < |Split(s, sep)| && c in Split(s, sep)[k] ensures c in s {
        if s[0] == sep {
          if k > 0 { assert Split(s, sep)[k] == rest[k - 1]; assert c in s[1..]; }
        } else if k == 0 {
          assert Split(s, sep)[0] == [s[0]] + rest[0];
          if c != s[0] { assert c in rest[0]; assert c in s[1..]; }
        } else {
          assert Split(s, sep)[k] == rest[k];
          assert c in s[1..];
        }
      }
    }
  }

  /** Joining the pieces of Split gives back the input. */
  lemma {:induction false} JoinSplit(s: string, sep: char)
    ensures Join(Split(s, sep), sep) == s
    decreases |s|
  {
    if |s| > 0 {
      JoinSplit(s[1..], sep);
      var rest := Split(s[1..], sep);
      if s[0] == sep {
        assert Split(s, sep) == [""] + rest;
        assert ([""] + rest)[1..] == rest;
        assert s == [sep] + s[1..];
      } else if |rest| == 1 {
        assert Split(s, sep) == [[s[0]] + rest[0]];
        assert s == [s[0]] + s[1..];
      } else {
        var parts := Split(s, sep);
        assert parts[1..] == rest[1..];
        assert Join(rest, sep) == rest[0] + [sep] + Join(rest[1..], sep);
        assert s == [s[0]] + s[1..];
      }
    }
  }

  /** A piece without separators splits into itself. */
  lemma {:induction false} SplitFree(p: string, sep: char)
    requires sep !in p
    ensures Split(p, sep) == [p]
    decreases |p|
  {
    if |p| > 0 {
      SplitFree(p[1..], sep);
      assert [p[0]] + p[1..] == p;
    }
  }

  /** A separator-free prefix followed by a separator splits off as one piece. */
  lemma {:induction false} SplitCons(p: string, sep: char, q: string)
    requires sep !in p
    ensures Split(p + [sep] + q, sep) == [p] + Split(q, sep)
    decreases |p|
  {
    var s := p + [sep] + q;
    if |p| == 0 {
      assert s == [sep] + q;
      assert s[1..] == q;
    } else {
      assert s[1..] == p[1..] + [sep] + q;
      SplitCons(p[1..], sep, q);
      assert [p[0]] + p[1..] == p;
    }
  }

  /** Splitting a join of separator-free pieces gives back the pieces. */
  lemma {:induction false} SplitJoin(parts: seq<string>, sep: char)
    requires |parts| >= 1
    requires forall k :: 0 <= k < |parts| ==> sep !in parts[k]
    ensures Split(Join(parts, sep), sep) == parts
    decreases |parts|
  {
    if |parts| == 1 {
      SplitFree(parts[0], sep);
    } else {
      SplitJoin(parts[1..], sep);
      SplitCons(parts[0], sep, Join(parts[1..], sep));
      assert [parts[0]] + parts[1..] == parts;
    }
  }

  /** Join of a list extended at the end. */
  lemma {:induction false} JoinSnoc(parts: seq<string>, sep: char, last: string)
    requires |parts| >= 1
    ensures Join(parts + [last], sep) == Join(parts, sep) + [sep] + last
    decreases |parts|
  {
    if |parts| == 1 {
      assert (parts + [last])[1..] == [last];
    } else {
      assert (parts + [last])[1..] == parts[1..] + [last];
      JoinSnoc(parts[1..], sep, last);
    }
  }

  /** Every rune of a join is the separator or a rune of some piece. */
  lemma {:induction false} JoinRunes(parts: seq<string>, sep: char)
    ensures forall c :: c in Join(parts, sep) ==> c == sep || exists k :: 0 <= k < |parts| && c in parts[k]
    decreases |parts|
  {
    if |parts| > 1 {
      JoinRunes(parts[1..], sep);
      forall c | c in Join(parts, sep) ensures c == sep || exists k :: 0 <= k < |parts| && c in parts[k] {
        if c !in parts[0] && c != sep {
          assert c in Join(parts[1..], sep);
          var k :| 0 <= k < |parts[1..]| && c in parts[1..][k];
          assert c in parts[k + 1];
        } else if c in parts[0] {
          assert c in parts[0];
        }
      }
    } else if |parts| == 1 {
      assert forall c :: c in Join(parts, sep) ==> c in parts[0];
    }
  }

  /** One step of ReplaceAll with a two-rune pattern, stated rune by rune. */
  lemma ReplaceAllStep(s: string, p: string, r: string)
    requires |p| == 2
    ensures |s| < 2 ==> ReplaceAll(s, p, r) == s
    ensures |s| >= 2 && s[0] == p[0] && s[1] == p[1] ==> ReplaceAll(s, p, r) == r + ReplaceAll(s[2..], p, r)
    ensures |s| >= 2 && !(s[0] == p[0] && s[1] == p[1]) ==> ReplaceAll(s, p, r) == [s[0]] + ReplaceAll(s[1..], p, r)
  {
    if |s| >= 2 {
      assert s[..2] == [s[0], s[1]];
      assert p == [p[0], p[1]];
    }
  }

  /** A string without the pattern's first rune is left unchanged. */
  lemma {:induction false} ReplaceAllAbsent(s: string, p: string, r: string)
    requires |p| == 2 && p[0] !in s
    ensures ReplaceAll(s, p, r) == s
    decreases |s|
  {
    ReplaceAllStep(s, p, r);
    if |s| >= 2 {
      assert s[0] in s;
      assert forall c :: c in s[1..] ==> c in s;
      ReplaceAllAbsent(s[1..], p, r);
      assert [s[0]] + s[1..] == s;
    }
  }

  /** With a two-rune pattern, ReplaceAll distributes over a concatenation
      when no occurrence of the pattern straddles the seam. */
  lemma {:induction false} ReplaceAllConcat(x: string, y: string, p: string, r: string)
    requires |p| == 2
    requires !(|x| > 0 && |y| > 0 && x[|x| - 1] == p[0] && y[0] == p[1])
    ensures ReplaceAll(x + y, p, r) == ReplaceAll(x, p, r) + ReplaceAll(y, p, r)
    decreases |x|
  {
    var s := x + y;
    if |x| == 0 {
      assert s == y;
    } else if |y| == 0 {
      assert s == x;
    } else if |x| == 1 {
      assert s[0] == x[0] && s[1] == y[0] && s[1..] == y;
      ReplaceAllStep(s, p, r);
      ReplaceAllStep(x, p, r);
    } else if x[0] == p[0] && x[1] == p[1] {
      assert s[0] == x[0] && s[1] == x[1] && s[2..] == x[2..] + y;
      ReplaceAllStep(s, p, r);
      ReplaceAllStep(x, p, r);
      ReplaceAllConcat(x[2..], y, p, r);
    } else {
      assert s[0] == x[0] && s[1] == x[1] && s[1..] == x[1..] + y;
      ReplaceAllStep(s, p, r);
      ReplaceAllStep(x, p, r);
      ReplaceAllConcat(x[1..], y, p, r);
    }
  }

  /** When the replacement starts with the pattern's first rune, ReplaceAll
      keeps the first rune of a non-empty string. */
  lemma ReplaceAllHead(s: string, p: string, r: string)
    requires |p| == 2 && |r| > 0 && r[0] == p[0] && |s| > 0
    ensures |ReplaceAll(s, p, r)| > 0 && ReplaceAll(s, p, r)[0] == s[0]
  {
    ReplaceAllStep(s, p, r);
  }
}
