/** internal/helpers.go: the name normaliser ToSnakeCase, the first-match
    searches IndexOf and IndexOfWithField, and ToCtyList. */
module Helpers {
  import opened Wrappers
  import opened GoStrings
  import Cty

  /** Which case of ToSnakeCase's switch a rune falls in: unicode.IsUpper is
      tested first, then IsLower or IsNumber, then IsPrint. */
  datatype RuneClass = Upper | Lower | Number | Printable | NonPrintable

  /** The Unicode tables behind unicode.IsUpper, IsLower, IsNumber and IsPrint
      (folded into `category`), unicode.ToLower, and unicode.ToUpper (used
      rune by rune by strings.ToUpper). */
  datatype RuneTable = RuneTable(category: char -> RuneClass, toLower: char -> char, toUpper: char -> char)
  {
    /** The two facts about the tables that the normaliser's properties need:
        '_' is printable punctuation, and lower-casing an upper-case rune
        yields a lower-case rune or, for an upper-case rune without a
        lower-case form (U+2102, U+03D2, U+1D400), the rune itself. */
    ghost predicate Valid() {
      && category('_') == Printable
      && forall c :: category(c) == Upper ==> category(toLower(c)) == Lower || toLower(c) == c
    }
  }

  /** A small concrete table: exact for ASCII; the C1 controls and U+00A0
      (no-break space, which unicode.IsPrint rejects) are non-printable; every
      rune above U+00A0 is treated as a printable symbol. */
  function SampleCategory(c: char): RuneClass {
    if 'A' <= c <= 'Z' then Upper
    else if 'a' <= c <= 'z' then Lower
    else if '0' <= c <= '9' then Number
    else if ' ' <= c <= '~' then Printable
    else if c <= '\U{00A0}' then NonPrintable
    else Printable
  }

  function SampleLower(c: char): char {
    if 'A' <= c <= 'Z' then (c as int + 32) as char else c
  }

  function SampleUpper(c: char): char {
    if 'a' <= c <= 'z' then (c as int - 32) as char else c
  }

  const SampleRunes := RuneTable(SampleCategory, SampleLower, SampleUpper)

  lemma SampleRunesValid()
    ensures SampleRunes.Valid()
  {
  }

  // ---------------------------------------------------------------------
  // ToSnakeCase

  /** The first pass's mapping of one rune; None stands for the -1 that
      makes strings.Map drop the rune. */
  function FoldRune(u: RuneTable, c: char): Option<char> {
    match u.category(c)
    case Upper => Some(u.toLower(c))
    case Lower => Some(c)
    case Number => Some(c)
    case Printable => Some('_')
    case NonPrintable => None
  }

  /** strings.Map(FoldRune, s). */
  function FirstPass(u: RuneTable, s: string): string
    decreases |s|
  {
    if |s| == 0 then ""
    else (match FoldRune(u, s[0]) case Some(c) => [c] case None => []) + FirstPass(u, s[1..])
  }

  /** strings.TrimPrefix(strings.TrimSuffix(s, "_"), "_"). */
  function SecondPass(s: string): string {
    TrimPrefix(TrimSuffix(s, "_"), "_")
  }

  /** The chunks the third pass keeps: the non-empty ones, in order. */
  function NonEmpty(chunks: seq<string>): (r: seq<string>)
    ensures forall k :: 0 <= k < |r| ==> r[k] != "" && r[k] in chunks
    ensures (forall k :: 0 <= k < |chunks| ==> chunks[k] != "") ==> r == chunks
    decreases |chunks|
  {
    if |chunks| == 0 then []
    else
      var init := chunks[..|chunks| - 1];
      var last := chunks[|chunks| - 1];
      assert init + [last] == chunks;
      NonEmpty(init) + (if last != "" then [last] else [])
  }

  /** The second pass, then splitting on '_', dropping the empty chunks and
      joining the rest with '_'. */
  function LastPasses(x: string): string {
    Join(NonEmpty(Split(SecondPass(x), '_')), '_')
  }

  /** What ToSnakeCase returns. */
  function SnakeCase(u: RuneTable, s: string): string {
    LastPasses(FirstPass(u, s))
  }

  /** A rune that may appear in a normalised name: '_', a lower-case letter, a
      number, or an upper-case rune that has no lower-case form. */
  predicate SnakeRune(u: RuneTable, c: char) {
    || c == '_' || u.category(c) == Lower || u.category(c) == Number
    || (u.category(c) == Upper && u.toLower(c) == c)
  }

  predicate NoEdgeUnderscore(s: string) {
    |s| > 0 ==> s[0] != '_' && s[|s| - 1] != '_'
  }

  predicate NoDoubleUnderscore(s: string) {
    forall i :: 0 <= i < |s| - 1 ==> !(s[i] == '_' && s[i + 1] == '_')
  }

  method ToSnakeCase(u: RuneTable, str: string) returns (r: string)
    ensures r == SnakeCase(u, str)
  {
    var firstPass := FirstPass(u, str);
    var secondPass := TrimPrefix(TrimSuffix(firstPass, "_"), "_");
    var chunks := Split(secondPass, '_');
    var thirdPass: seq<string> := [];
    for i := 0 to |chunks|
      invariant thirdPass == NonEmpty(chunks[..i])
    {
      assert chunks[..i + 1][..i] == chunks[..i];
      if chunks[i] != "" {
        thirdPass := thirdPass + [chunks[i]];
      }
    }
    assert chunks[..|chunks|] == chunks;
    r := Join(thirdPass, '_');
  }

  /** A join starts with its first piece. */
  lemma {:induction false} JoinStartsWith(parts: seq<string>, sep: char)
    requires |parts| >= 1
    ensures |Join(parts, sep)| >= |parts[0]| && Join(parts, sep)[..|parts[0]|] == parts[0]
  {
  }

  /** Joining non-empty, underscore-free chunks with '_' leaves no underscore
      at either end and no two underscores in a row. */
  lemma {:induction false} JoinCanonical(parts: seq<string>)
    requires forall k :: 0 <= k < |parts| ==> parts[k] != "" && '_' !in parts[k]
    ensures NoEdgeUnderscore(Join(parts, '_')) && NoDoubleUnderscore(Join(parts, '_'))
    decreases |parts|
  {
    var s := Join(parts, '_');
    if |parts| == 1 {
      assert s == parts[0];
      assert s[0] in parts[0] && s[|s| - 1] in parts[0];
      forall i | 0 <= i < |s| - 1 ensures !(s[i] == '_' && s[i + 1] == '_') {
        assert s[i] in parts[0];
      }
    } else if |parts| > 1 {
      var p := parts[0];
      var j := Join(parts[1..], '_');
      JoinCanonical(parts[1..]);
      JoinStartsWith(parts[1..], '_');
      assert |j| > 0;
      assert s == p + ['_'] + j;
      assert s[0] == p[0] && p[0] in p;
      assert s[|s| - 1] == j[|j| - 1];
      forall i | 0 <= i < |s| - 1 ensures !(s[i] == '_' && s[i + 1] == '_') {
        if i < |p| {
          assert s[i] == p[i] && p[i] in p;
        } else if i == |p| {
          assert s[i + 1] == j[0];
        } else {
          assert s[i] == j[i - |p| - 1] && s[i + 1] == j[i - |p|];
        }
      }
    }
  }

  /** The chunks the third pass joins are non-empty and underscore-free. */
  lemma ThirdPassChunks(x: string)
    ensures forall k :: 0 <= k < |NonEmpty(Split(x, '_'))| ==>
      NonEmpty(Split(x, '_'))[k] != "" && '_' !in NonEmpty(Split(x, '_'))[k]
  {
    SplitPiecesFree(x, '_');
  }

  /** ToSnakeCase's result never begins or ends with '_' and never holds two
      '_' in a row. */
  lemma SnakeCaseShape(u: RuneTable, s: string)
    ensures NoEdgeUnderscore(SnakeCase(u, s)) && NoDoubleUnderscore(SnakeCase(u, s))
  {
    ThirdPassChunks(SecondPass(FirstPass(u, s)));
    JoinCanonical(NonEmpty(Split(SecondPass(FirstPass(u, s)), '_')));
  }

  lemma {:induction false} FirstPassAlphabet(u: RuneTable, s: string)
    requires u.Valid()
    ensures forall c :: c in FirstPass(u, s) ==> SnakeRune(u, c)
    decreases |s|
  {
    if |s| > 0 {
      FirstPassAlphabet(u, s[1..]);
    }
  }

  lemma SecondPassWithin(x: string)
    ensures forall c :: c in SecondPass(x) ==> c in x
  {
    var t := TrimSuffix(x, "_");
    assert forall c :: c in t ==> c in x by {
      if HasSuffix(x, "_") { assert x == t + "_"; }
    }
    var r := TrimPrefix(t, "_");
    assert forall c :: c in r ==> c in t by {
      if HasPrefix(t, "_") { assert t == "_" + r; }
    }
  }

  /** The second pass leaves a string without edge underscores alone. */
  lemma SecondPassKeeps(x: string)
    requires NoEdgeUnderscore(x)
    ensures SecondPass(x) == x
  {
    if |x| > 0 {
      assert x[|x| - 1..] == [x[|x| - 1]];
      assert !HasSuffix(x, "_");
      assert x[..1] == [x[0]];
      assert !HasPrefix(x, "_");
    }
  }

  /** The last passes add no rune but '_'. */
  lemma LastPassesWithin(x: string)
    ensures forall c :: c in LastPasses(x) ==> c == '_' || c in x
  {
    var sp := SecondPass(x);
    var chunks := Split(sp, '_');
    var kept := NonEmpty(chunks);
    var r := Join(kept, '_');
    SecondPassWithin(x);
    SplitPiecesWithin(sp, '_');
    JoinRunes(kept, '_');
    forall c | c in r && c != '_' ensures c in x {
      var k :| 0 <= k < |kept| && c in kept[k];
      var j :| 0 <= j < |chunks| && chunks[j] == kept[k];
      assert c in sp;
    }
  }

  /** Every rune of ToSnakeCase's result is '_', a lower-case letter, a
      number, or an upper-case rune that lower-casing leaves unchanged. */
  lemma SnakeCaseAlphabet(u: RuneTable, s: string)
    requires u.Valid()
    ensures forall i :: 0 <= i < |SnakeCase(u, s)| ==> SnakeRune(u, SnakeCase(u, s)[i])
  {
    var fp := FirstPass(u, s);
    var r := LastPasses(fp);
    FirstPassAlphabet(u, s);
    LastPassesWithin(fp);
    forall i | 0 <= i < |r| ensures SnakeRune(u, r[i]) {
      assert r[i] in r;
    }
  }

  /** The last passes are idempotent. */
  lemma LastPassesIdempotent(x: string)
    ensures LastPasses(LastPasses(x)) == LastPasses(x)
  {
    var kept := NonEmpty(Split(SecondPass(x), '_'));
    var r := Join(kept, '_');
    ThirdPassChunks(SecondPass(x));
    JoinCanonical(kept);
    SecondPassKeeps(r);
    assert SecondPass(r) == r;
    if |kept| == 0 {
      assert r == "";
      assert Split(r, '_') == [""];
      assert NonEmpty([""]) == [];
    } else {
      SplitJoin(kept, '_');
      assert Split(r, '_') == kept;
      assert NonEmpty(kept) == kept;
    }
  }

  /** A string made only of normalised runes survives the first pass. */
  lemma {:induction false} FirstPassFixed(u: RuneTable, s: string)
    requires u.Valid()
    requires forall i :: 0 <= i < |s| ==> SnakeRune(u, s[i])
    ensures FirstPass(u, s) == s
    decreases |s|
  {
    if |s| > 0 {
      FirstPassFixed(u, s[1..]);
      assert [s[0]] + s[1..] == s;
    }
  }

  /** Normalising is idempotent: a normalised name is its own normal form. */
  lemma SnakeCaseIdempotent(u: RuneTable, s: string)
    requires u.Valid()
    ensures SnakeCase(u, SnakeCase(u, s)) == SnakeCase(u, s)
  {
    var fp := FirstPass(u, s);
    var r := LastPasses(fp);
    SnakeCaseAlphabet(u, s);
    assert r == SnakeCase(u, s);
    FirstPassFixed(u, r);
    LastPassesIdempotent(fp);
  }

  /** The first pass works rune by rune, so it distributes over concatenation. */
  lemma {:induction false} FirstPassConcat(u: RuneTable, s: string, t: string)
    ensures FirstPass(u, s + t) == FirstPass(u, s) + FirstPass(u, t)
    decreases |s|
  {
    if |s| > 0 {
      assert (s + t)[1..] == s[1..] + t;
      FirstPassConcat(u, s[1..], t);
    } else {
      assert s + t == t;
    }
  }

  // ---------------------------------------------------------------------
  // IndexOf, IndexOfWithField

  /** The first index holding `needle`, or -1 when there is none (in
      particular for an empty haystack). */
  method IndexOf<T(==)>(needle: T, haystack: seq<T>) returns (r: int)
    ensures -1 <= r < |haystack|
    ensures r == -1 <==> needle !in haystack
    ensures 0 <= r ==> haystack[r] == needle && needle !in haystack[..r]
  {
    for i := 0 to |haystack|
      invariant needle !in haystack[..i]
    {
      if haystack[i] == needle {
        return i;
      }
    }
    assert haystack[..|haystack|] == haystack;
    return -1;
  }

  /** The first index whose field equals `needle`'s field. `field` stands for
      the pointerstructure lookup of the named field: None when the value has
      no such field. Elements without the field never match; a needle
      without the field matches nothing. */
  method IndexOfWithField<T, F(==)>(needle: T, haystack: seq<T>, field: T -> Option<F>) returns (r: int)
    ensures -1 <= r < |haystack|
    ensures field(needle).None? ==> r == -1
    ensures r == -1 <==>
      field(needle).None? || forall i :: 0 <= i < |haystack| ==> field(haystack[i]) != field(needle)
    ensures 0 <= r ==>
      && field(haystack[r]).Some?
      && field(haystack[r]) == field(needle)
      && forall j :: 0 <= j < r ==> field(haystack[j]) != field(needle)
  {
    var needleVal := field(needle);
    if needleVal.None? {
      return -1;
    }
    for i := 0 to |haystack|
      invariant forall j :: 0 <= j < i ==> field(haystack[j]) != needleVal
    {
      var stalk := field(haystack[i]);
      if stalk.None? {
        continue;
      }
      if needleVal == stalk {
        return i;
      }
    }
    return -1;
  }

  // ---------------------------------------------------------------------
  // ToCtyList

  /** A list value holding the strings in order; for an empty (or nil) slice,
      the empty list. */
  method ToCtyList(vals: seq<string>) returns (v: Cty.Value)
    ensures v == Cty.StringList(vals)
    ensures Cty.AsStrings(v) == Some(vals)
  {
    Cty.AsStringsStringList(vals);
    if |vals| == 0 {
      return Cty.ListVal([]);
    }
    var valSlice := new Cty.Value[|vals|];
    for i := 0 to |vals|
      invariant forall j :: 0 <= j < i ==> valSlice[j] == Cty.StringVal(vals[j])
    {
      valSlice[i] := Cty.StringVal(vals[i]);
    }
    v := Cty.ListVal(valSlice[..]);
  }
}

/** How runs of separators between words come out of ToSnakeCase, and the
    examples of internal/helpers_test.go as instances, with the sample table. */
module HelperExamples {
  import opened GoStrings
  import opened Helpers

  /** A piece whose first pass is one word: non-empty, no underscore. */
  predicate Word(u: RuneTable, w: string) {
    FirstPass(u, w) != "" && '_' !in FirstPass(u, w)
  }

  /** A piece whose first pass is a non-empty run of underscores. */
  predicate Gap(u: RuneTable, g: string) {
    FirstPass(u, g) != "" && forall i :: 0 <= i < |FirstPass(u, g)| ==> FirstPass(u, g)[i] == '_'
  }

  lemma NonEmptyConcat(xs: seq<string>, ys: seq<string>)
    ensures NonEmpty(xs + ys) == NonEmpty(xs) + NonEmpty(ys)
    decreases |ys|
  {
    if |ys| > 0 {
      var init := ys[..|ys| - 1];
      assert (xs + ys)[..|xs + ys| - 1] == xs + init;
      NonEmptyConcat(xs, init);
    } else {
      assert xs + ys == xs;
    }
  }

  /** Underscores in front of a word split into empty chunks, which the
      third pass drops. */
  lemma {:induction false} ChunksAfterUnderscores(x: string, b: string)
    requires forall i :: 0 <= i < |x| ==> x[i] == '_'
    requires b != "" && '_' !in b
    ensures NonEmpty(Split(x + b, '_')) == [b]
    decreases |x|
  {
    if |x| == 0 {
      assert x + b == b;
      SplitFree(b, '_');
    } else {
      ChunksAfterUnderscores(x[1..], b);
      assert x + b == "" + ['_'] + (x[1..] + b);
      SplitCons("", '_', x[1..] + b);
      NonEmptyConcat([""], Split(x[1..] + b, '_'));
    }
  }

  /** Two words with a run of separators between them: the run becomes one
      underscore. */
  lemma {:induction false} WordsAroundUnderscores(a: string, x: string, b: string)
    requires a != "" && '_' !in a && b != "" && '_' !in b
    requires x != "" && forall i :: 0 <= i < |x| ==> x[i] == '_'
    ensures LastPasses(a + x + b) == a + "_" + b
  {
    var y := a + x + b;
    assert y[0] == a[0] && a[0] in a;
    assert y[|y| - 1] == b[|b| - 1] && b[|b| - 1] in b;
    SecondPassKeeps(y);
    var rest := x[1..] + b;
    assert y == a + ['_'] + rest;
    SplitCons(a, '_', rest);
    ChunksAfterUnderscores(x[1..], b);
    NonEmptyConcat([a], Split(rest, '_'));
    assert NonEmpty([a]) == [a] by { assert [a][..0] == []; }
    assert NonEmpty(Split(y, '_')) == [a, b];
    assert [a, b][1..] == [b];
    assert Join([a, b], '_') == a + "_" + b;
  }

  /** The first pass over two pieces laid end to end. */
  lemma FirstPass2(u: RuneTable, s: string, p: string, q: string)
    requires s == p + q
    ensures FirstPass(u, s) == FirstPass(u, p) + FirstPass(u, q)
  {
    FirstPassConcat(u, p, q);
  }

  /** The first pass over three pieces laid end to end. */
  lemma FirstPass3(u: RuneTable, s: string, p: string, q: string, t: string)
    requires s == p + q + t
    ensures FirstPass(u, s) == FirstPass(u, p) + FirstPass(u, q) + FirstPass(u, t)
  {
    FirstPassConcat(u, p + q, t);
    FirstPassConcat(u, p, q);
  }

  /** One leading underscore is trimmed by the second pass and the rest is
      kept as it is. */
  lemma {:induction false} LeadingUnderscore(a: string, x: string, b: string)
    requires a != "" && '_' !in a && b != "" && '_' !in b
    requires x != "" && forall i :: 0 <= i < |x| ==> x[i] == '_'
    ensures LastPasses("_" + (a + x + b)) == a + "_" + b
  {
    var rest := a + x + b;
    var fp := "_" + rest;
    assert fp[|fp| - 1] == b[|b| - 1] && b[|b| - 1] in b;
    assert fp[|fp| - 1..] == [fp[|fp| - 1]];
    assert fp[..1] == "_";
    assert SecondPass(fp) == rest;
    WordsAroundUnderscores(a, x, b);
  }

  /** Two words that nothing separates make one chunk. */
  lemma {:induction false} GluedChunks(a: string, b: string)
    requires a != "" && '_' !in a && b != "" && '_' !in b
    ensures LastPasses(a + b) == a + b
  {
    var fp := a + b;
    assert fp[0] in a && fp[|fp| - 1] in b;
    SecondPassKeeps(fp);
    SplitFree(fp, '_');
    assert NonEmpty([fp]) == [fp] by { assert [fp][..0] == []; }
  }

  /** Words separated by printable non-alphanumerics (and possibly
      non-printables) are joined by exactly one underscore. */
  lemma SnakeCaseOfWords(u: RuneTable, s: string, w1: string, gap: string, w2: string)
    requires s == w1 + gap + w2
    requires Word(u, w1) && Gap(u, gap) && Word(u, w2)
    ensures SnakeCase(u, s) == FirstPass(u, w1) + "_" + FirstPass(u, w2)
  {
    FirstPass3(u, s, w1, gap, w2);
    WordsAroundUnderscores(FirstPass(u, w1), FirstPass(u, gap), FirstPass(u, w2));
  }

  /** The first pass over four pieces laid end to end. */
  lemma FirstPass4(u: RuneTable, s: string, g: string, w1: string, gap: string, w2: string)
    requires s == g + w1 + gap + w2
    ensures FirstPass(u, s) == FirstPass(u, g) + (FirstPass(u, w1) + FirstPass(u, gap) + FirstPass(u, w2))
  {
    var rest := w1 + gap + w2;
    assert s == g + rest;
    FirstPass2(u, s, g, rest);
    FirstPass3(u, rest, w1, gap, w2);
  }

  /** The first pass over a piece it drops between two others. */
  lemma FirstPassDropped(u: RuneTable, s: string, w1: string, drop: string, w2: string)
    requires s == w1 + drop + w2
    requires FirstPass(u, drop) == []
    ensures FirstPass(u, s) == FirstPass(u, w1) + FirstPass(u, w2)
  {
    var a := FirstPass(u, w1);
    FirstPass3(u, s, w1, drop, w2);
    assert a + [] == a;
  }

  /** A single leading separator is trimmed. */
  lemma SnakeCaseOfLeadingGap(u: RuneTable, s: string, g: string, w1: string, gap: string, w2: string)
    requires s == g + w1 + gap + w2
    requires FirstPass(u, g) == "_"
    requires Word(u, w1) && Gap(u, gap) && Word(u, w2)
    ensures SnakeCase(u, s) == FirstPass(u, w1) + "_" + FirstPass(u, w2)
  {
    FirstPass4(u, s, g, w1, gap, w2);
    LeadingUnderscore(FirstPass(u, w1), FirstPass(u, gap), FirstPass(u, w2));
  }

  /** An upper-case rune without a lower-case form, such as U+2102, is its
      own normal form. */
  lemma SnakeCaseCaselessUpper(u: RuneTable, c: char)
    requires u.Valid()
    requires u.category(c) == Upper && u.toLower(c) == c
    ensures SnakeCase(u, [c]) == [c]
  {
    assert FirstPass(u, [c]) == [c] by { assert [c][1..] == []; }
    SecondPassKeeps([c]);
    SplitFree([c], '_');
    assert NonEmpty([[c]]) == [[c]] by { assert [[c]][..0] == []; }
  }

  /** Runes the first pass drops glue the words around them together. */
  lemma SnakeCaseOfGluedWords(u: RuneTable, s: string, w1: string, drop: string, w2: string)
    requires s == w1 + drop + w2
    requires Word(u, w1) && FirstPass(u, drop) == "" && Word(u, w2)
    ensures SnakeCase(u, s) == FirstPass(u, w1) + FirstPass(u, w2)
  {
    FirstPassDropped(u, s, w1, drop, w2);
    GluedChunks(FirstPass(u, w1), FirstPass(u, w2));
  }

  /** Under the sample table, the first pass lower-cases a word of ASCII
      letters rune by rune. */
  lemma {:induction false} FirstPassLetters(w: string)
    requires forall i :: 0 <= i < |w| ==> 'A' <= w[i] <= 'Z' || 'a' <= w[i] <= 'z'
    ensures |FirstPass(SampleRunes, w)| == |w|
    ensures forall i :: 0 <= i < |w| ==> FirstPass(SampleRunes, w)[i] == SampleLower(w[i])
    decreases |w|
  {
    if |w| > 0 {
      FirstPassLetters(w[1..]);
      assert FirstPass(SampleRunes, w) == [SampleLower(w[0])] + FirstPass(SampleRunes, w[1..]);
    }
  }

  /** Under the sample table, the first pass turns every printable ASCII rune
      that is neither a letter nor a digit into '_'. */
  lemma {:induction false} FirstPassSeparators(w: string)
    requires forall i :: 0 <= i < |w| ==> SampleCategory(w[i]) == Printable && w[i] <= '~'
    ensures |FirstPass(SampleRunes, w)| == |w|
    ensures forall i :: 0 <= i < |w| ==> FirstPass(SampleRunes, w)[i] == '_'
    decreases |w|
  {
    if |w| > 0 {
      FirstPassSeparators(w[1..]);
      assert FirstPass(SampleRunes, w) == "_" + FirstPass(SampleRunes, w[1..]);
    }
  }

  /** Under the sample table, the first pass drops every rune from U+0080 to
      U+00A0. */
  lemma {:induction false} FirstPassNonPrintable(w: string)
    requires forall i :: 0 <= i < |w| ==> '\U{0080}' <= w[i] <= '\U{00A0}'
    ensures FirstPass(SampleRunes, w) == ""
    decreases |w|
  {
    if |w| > 0 {
      FirstPassNonPrintable(w[1..]);
    }
  }

  // The examples of internal/helpers_test.go. Each is first proved for its
  // pieces (words and gaps), to which the lemmas about separators above
  // apply piece by piece, and then stated on the literal input.

  /** The expected outputs, assembled from the words. */
  lemma HelloUnderscoreWorld(a: string, b: string)
    requires a == "hello" && b == "world"
    ensures a + "_" + b == "hello_world"
  {
  }

  lemma HelloWorldGlued(a: string, b: string)
    requires a == "hello" && b == "world"
    ensures a + b == "helloworld"
  {
  }

  /** Two words around a gap of separators, as in "Hello World" and
      "Hello, world". */
  lemma HelloWorldPieces(w1: string, gap: string, w2: string)
    requires w1 == "Hello" && (gap == " " || gap == ", ") && (w2 == "World" || w2 == "world")
    ensures SnakeCase(SampleRunes, w1 + gap + w2) == "hello_world"
  {
    FirstPassLetters(w1);
    FirstPassSeparators(gap);
    FirstPassLetters(w2);
    assert FirstPass(SampleRunes, w1) == "hello";
    assert FirstPass(SampleRunes, w2) == "world";
    SnakeCaseOfWords(SampleRunes, w1 + gap + w2, w1, gap, w2);
    HelloUnderscoreWorld(FirstPass(SampleRunes, w1), FirstPass(SampleRunes, w2));
  }

  /** A leading gap, then two words, as in " hello WORLD". */
  lemma LeadingPieces(g: string, w1: string, gap: string, w2: string)
    requires g == " " && w1 == "hello" && gap == " " && w2 == "WORLD"
    ensures SnakeCase(SampleRunes, g + w1 + gap + w2) == "hello_world"
  {
    FirstPassSeparators(g);
    FirstPassLetters(w1);
    FirstPassSeparators(gap);
    FirstPassLetters(w2);
    assert FirstPass(SampleRunes, g) == "_";
    assert FirstPass(SampleRunes, w1) == "hello";
    assert FirstPass(SampleRunes, w2) == "world";
    SnakeCaseOfLeadingGap(SampleRunes, g + w1 + gap + w2, g, w1, gap, w2);
    HelloUnderscoreWorld(FirstPass(SampleRunes, w1), FirstPass(SampleRunes, w2));
  }

  /** Two words around a non-printable rune, as in "hello\u00a0world". */
  lemma NonPrintablePieces(w1: string, drop: string, w2: string)
    requires w1 == "hello" && drop == "\U{00A0}" && w2 == "world"
    ensures SnakeCase(SampleRunes, w1 + drop + w2) == "helloworld"
  {
    FirstPassLetters(w1);
    FirstPassNonPrintable(drop);
    FirstPassLetters(w2);
    assert FirstPass(SampleRunes, w1) == "hello";
    assert FirstPass(SampleRunes, w2) == "world";
    SnakeCaseOfGluedWords(SampleRunes, w1 + drop + w2, w1, drop, w2);
    HelloWorldGlued(FirstPass(SampleRunes, w1), FirstPass(SampleRunes, w2));
  }

  // The literal inputs, assembled from their pieces.

  lemma SpaceInput()
    ensures "Hello" + " " + "World" == "Hello World"
  {
  }

  lemma RepeatedInput()
    ensures "Hello" + ", " + "world" == "Hello, world"
  {
  }

  lemma LeadingInput()
    ensures " " + "hello" + " " + "WORLD" == " hello WORLD"
  {
  }

  lemma NonPrintableInput()
    ensures "hello" + "\U{00A0}" + "world" == "hello\U{00A0}world"
  {
  }

  /** "Hello World" normalises to "hello_world". */
  lemma SnakeCaseSpace()
    ensures SnakeCase(SampleRunes, "Hello World") == "hello_world"
  {
    HelloWorldPieces("Hello", " ", "World");
    SpaceInput();
  }

  /** "Hello, world": the comma and the space give two underscores, which the
      third pass reduces to one. */
  lemma SnakeCaseRepeated()
    ensures SnakeCase(SampleRunes, "Hello, world") == "hello_world"
  {
    HelloWorldPieces("Hello", ", ", "world");
    RepeatedInput();
  }

  /** " hello WORLD": the underscore from the leading space is trimmed. */
  lemma SnakeCaseLeading()
    ensures SnakeCase(SampleRunes, " hello WORLD") == "hello_world"
  {
    LeadingPieces(" ", "hello", " ", "WORLD");
    LeadingInput();
  }

  /** "hello\u00a0world": the no-break space is not printable and is dropped. */
  lemma SnakeCaseNonPrintable()
    ensures SnakeCase(SampleRunes, "hello\U{00A0}world") == "helloworld"
  {
    NonPrintablePieces("hello", "\U{00A0}", "world");
    NonPrintableInput();
  }
}
