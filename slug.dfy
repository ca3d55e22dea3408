/** The slug cleaner applied to a hand-typed slug in the profile-creation dialog: lower-case the
    text, turn every character outside `[a-z0-9-]` into a hyphen, collapse hyphen runs, and strip
    one leading and one trailing hyphen. */
module Slug {
  import opened JsText

  /** The characters a slug may hold: `[a-z0-9-]`. */
  predicate IsSlugChar(c: char) {
    'a' <= c <= 'z' || '0' <= c <= '9' || c == '-'
  }

  /** A lower-case ASCII letter or a digit: the characters that carry a slug's content. */
  predicate IsAlnum(c: char) {
    'a' <= c <= 'z' || '0' <= c <= '9'
  }

  predicate AllSlugChars(s: string) {
    forall i :: 0 <= i < |s| ==> IsSlugChar(s[i])
  }

  predicate NoDoubleHyphen(s: string) {
    forall i :: 0 <= i < |s| - 1 ==> !(s[i] == '-' && s[i + 1] == '-')
  }

  predicate NoEdgeHyphen(s: string) {
    s == [] || (s[0] != '-' && s[|s| - 1] != '-')
  }

  /** The shape every cleaned slug has. */
  predicate IsCleanSlug(s: string) {
    AllSlugChars(s) && NoDoubleHyphen(s) && NoEdgeHyphen(s)
  }

  /** The letters and digits of `s`, in order. */
  function Alnums(s: string): string {
    if s == [] then [] else (if IsAlnum(s[0]) then [s[0]] else []) + Alnums(s[1..])
  }

  lemma {:induction false} AlnumsAppend(a: string, b: string)
    ensures Alnums(a + b) == Alnums(a) + Alnums(b)
  {
    if a == [] {
      assert a + b == b;
    } else {
      var head := if IsAlnum(a[0]) then [a[0]] else [];
      assert (a + b)[0] == a[0];
      assert (a + b)[1..] == a[1..] + b;
      AlnumsAppend(a[1..], b);
      assert Alnums(a + b) == head + (Alnums(a[1..]) + Alnums(b));
      assert head + (Alnums(a[1..]) + Alnums(b)) == (head + Alnums(a[1..])) + Alnums(b);
    }
  }

  /** `.replace(/[^a-z0-9-]/g, '-')`. */
  function ReplaceInvalid(s: string): (r: string)
    ensures |r| == |s| && AllSlugChars(r)
    ensures forall i :: 0 <= i < |s| ==> r[i] == (if IsSlugChar(s[i]) then s[i] else '-')
  {
    seq(|s|, i requires 0 <= i < |s| => if IsSlugChar(s[i]) then s[i] else '-')
  }

  /** `.replace(/-+/g, '-')`: every run of hyphens becomes one hyphen. */
  function CollapseHyphens(s: string): string
    decreases |s|
  {
    if |s| < 2 then s
    else if s[0] == '-' && s[1] == '-' then CollapseHyphens(s[1..])
    else [s[0]] + CollapseHyphens(s[1..])
  }

  /** Collapsing leaves no two hyphens in a row, keeps the first and the last character and the
      character set, and empties only the empty string. */
  lemma {:induction false} CollapseShape(s: string)
    ensures var r := CollapseHyphens(s);
      |r| <= |s| && (r == [] <==> s == [])
      && (r != [] ==> r[0] == s[0] && r[|r| - 1] == s[|s| - 1])
      && NoDoubleHyphen(r)
      && (AllSlugChars(s) ==> AllSlugChars(r))
    decreases |s|
  {
    if |s| >= 2 {
      CollapseShape(s[1..]);
      var t := CollapseHyphens(s[1..]);
      if !(s[0] == '-' && s[1] == '-') {
        var r := [s[0]] + t;
        forall i | 0 <= i < |r| - 1 ensures !(r[i] == '-' && r[i + 1] == '-') {
          if i > 0 {
            assert r[i] == t[i - 1] && r[i + 1] == t[i];
          }
        }
        if AllSlugChars(s) {
          assert AllSlugChars(s[1..]);
        }
      }
    }
  }

  /** `.replace(/^-|-$/g, '')`: one leading and one trailing hyphen go. At most two characters
      are removed, and a string with no hyphen at either end is left as it is. */
  function StripEdgeHyphens(s: string): (r: string)
    ensures |s| - 2 <= |r| <= |s|
    ensures s == [] || (s[0] != '-' && s[|s| - 1] != '-') ==> r == s
  {
    var t := if s != [] && s[0] == '-' then s[1..] else s;
    if t != [] && t[|t| - 1] == '-' then t[..|t| - 1] else t
  }

  /** The cleaner of `handleSlugChange`. Its result holds only `[a-z0-9-]`, never two hyphens in
      a row, and no hyphen at either end. */
  function CleanSlug(value: string): (slug: string)
    ensures AllSlugChars(slug)
    ensures NoDoubleHyphen(slug)
    ensures NoEdgeHyphen(slug)
  {
    var c := CollapseHyphens(ReplaceInvalid(LowerAscii(value)));
    CollapseShape(ReplaceInvalid(LowerAscii(value)));
    StripKeepsShape(c);
    StripEdgeHyphens(c)
  }

  /** Stripping the edges of a collapsed string leaves a clean slug. */
  lemma StripKeepsShape(s: string)
    requires AllSlugChars(s) && NoDoubleHyphen(s)
    ensures IsCleanSlug(StripEdgeHyphens(s))
  {
    var t := if s != [] && s[0] == '-' then s[1..] else s;
    assert AllSlugChars(t) && NoDoubleHyphen(t);
    assert t != [] ==> t[0] != '-' by {
      if s != [] && s[0] == '-' && t != [] {
        assert t[0] == s[1];
      }
    }
    var r := if t != [] && t[|t| - 1] == '-' then t[..|t| - 1] else t;
    assert StripEdgeHyphens(s) == r;
    assert AllSlugChars(r) && NoDoubleHyphen(r);
    if r != [] {
      assert r[0] == t[0];
      if r != t {
        assert r[|r| - 1] == t[|t| - 2];
      }
    }
  }

  /** Collapsing keeps every letter and digit, in order. */
  lemma {:induction false} CollapseKeepsAlnums(s: string)
    ensures Alnums(CollapseHyphens(s)) == Alnums(s)
    decreases |s|
  {
    if |s| >= 2 {
      CollapseKeepsAlnums(s[1..]);
      assert s == [s[0]] + s[1..];
      AlnumsAppend([s[0]], s[1..]);
      if !(s[0] == '-' && s[1] == '-') {
        AlnumsAppend([s[0]], CollapseHyphens(s[1..]));
      }
    }
  }

  /** Stripping removes hyphens only. */
  lemma {:induction false} StripKeepsAlnums(s: string)
    ensures Alnums(StripEdgeHyphens(s)) == Alnums(s)
  {
    var t := if s != [] && s[0] == '-' then s[1..] else s;
    assert Alnums(t) == Alnums(s) by {
      if s != [] && s[0] == '-' {
        assert s == [s[0]] + t;
        AlnumsAppend([s[0]], t);
        assert Alnums([s[0]]) == [];
      }
    }
    if t != [] && t[|t| - 1] == '-' {
      var u := t[..|t| - 1];
      assert t == u + [t[|t| - 1]];
      AlnumsAppend(u, [t[|t| - 1]]);
      assert Alnums([t[|t| - 1]]) == [];
    }
  }

  /** Replacing invalid characters by hyphens keeps exactly the letters and digits. */
  lemma {:induction false} ReplaceKeepsAlnums(s: string)
    ensures Alnums(ReplaceInvalid(s)) == Alnums(s)
  {
    if s != [] {
      ReplaceKeepsAlnums(s[1..]);
      assert ReplaceInvalid(s) == [ReplaceInvalid(s)[0]] + ReplaceInvalid(s[1..]);
    }
  }

  /** Invalid characters become separators, not deletions: the letters and digits of the
      lower-cased input are exactly the non-hyphen characters of the slug, in order. */
  lemma CleanSlugKeepsAlnums(value: string)
    ensures Alnums(CleanSlug(value)) == Alnums(LowerAscii(value))
  {
    var r := ReplaceInvalid(LowerAscii(value));
    ReplaceKeepsAlnums(LowerAscii(value));
    CollapseKeepsAlnums(r);
    StripKeepsAlnums(CollapseHyphens(r));
  }

  /** The slug is empty exactly when the input holds no ASCII letter or digit, so an input made
      only of hyphens or invalid characters cleans to "". */
  lemma CleanSlugEmptyIff(value: string)
    ensures CleanSlug(value) == [] <==> Alnums(LowerAscii(value)) == []
  {
    CleanSlugKeepsAlnums(value);
    var slug := CleanSlug(value);
    if slug != [] {
      assert slug == [slug[0]] + slug[1..];
      AlnumsAppend([slug[0]], slug[1..]);
    }
  }

  /** A string that already has a slug's shape is left as it is by each step. */
  lemma {:induction false} CollapseFixes(s: string)
    requires NoDoubleHyphen(s)
    ensures CollapseHyphens(s) == s
    decreases |s|
  {
    if |s| >= 2 { CollapseFixes(s[1..]); }
  }

  /** The cleaned slugs are exactly the fixpoints of the cleaner. */
  lemma CleanSlugFixpoint(s: string)
    ensures CleanSlug(s) == s <==> IsCleanSlug(s)
  {
    if IsCleanSlug(s) {
      assert LowerAscii(s) == s;
      assert ReplaceInvalid(s) == s;
      CollapseFixes(s);
    }
  }

  /** Cleaning an already-cleaned slug returns it unchanged. */
  lemma CleanSlugIdempotent(value: string)
    ensures CleanSlug(CleanSlug(value)) == CleanSlug(value)
  {
    CleanSlugFixpoint(CleanSlug(value));
  }

  /** "Café Dakar!!" cleans to "caf-dakar": the accented letter and the punctuation become
      hyphens, which then collapse and are stripped. */
  lemma CleanSlugCafeDakar()
    ensures CleanSlug("Café Dakar!!") == "caf-dakar"
  {
    CafeDakarReplaced();
    CafeDakarCollapsed();
  }

  lemma CafeDakarReplaced()
    ensures ReplaceInvalid(LowerAscii("Café Dakar!!")) == "caf--dakar--"
  {
    var lowered := LowerAscii("Café Dakar!!");
    assert lowered == "café dakar!!";
  }

  lemma CafeDakarCollapsed()
    ensures CollapseHyphens("caf--dakar--") == "caf-dakar-"
  {
    HyphenDakarCollapsed();
    CollapseWord("caf", "--dakar--");
    CafeDakarSplit();
  }

  /** The two strings of the example, each as a word followed by the rest. */
  lemma CafeDakarSplit()
    ensures "caf" + "--dakar--" == "caf--dakar--"
    ensures "caf" + "-dakar-" == "caf-dakar-"
  {
    CafeDakarSplitBefore();
  }

  lemma CafeDakarSplitBefore()
    ensures "caf" + "--dakar--" == "caf--dakar--"
  {
  }

  lemma HyphenDakarCollapsed()
    ensures CollapseHyphens("--dakar--") == "-dakar-"
  {
    DakarCollapsed();
    CollapseKeep('-', "dakar--");
    HyphenDakarSplit();
    CollapseDrop("-dakar--");
  }

  /** The hyphen-led strings of the example, each as its first character and the rest. */
  lemma HyphenDakarSplit()
    ensures ['-'] + "dakar--" == "-dakar--"
    ensures ['-'] + "-dakar--" == "--dakar--"
    ensures ['-'] + "dakar-" == "-dakar-"
  {
    assert ['-'] + "dakar--" == "-dakar--";
  }

  lemma DakarCollapsed()
    ensures CollapseHyphens("dakar--") == "dakar-"
  {
    assert CollapseHyphens("--") == "-";
    CollapseWord("dakar", "--");
    assert "dakar" + "--" == "dakar--";
    assert "dakar" + "-" == "dakar-";
  }

  /** Collapsing never touches a word without hyphens at the front. */
  lemma {:induction false} CollapseWord(w: string, t: string)
    requires t != [] && forall i :: 0 <= i < |w| ==> w[i] != '-'
    ensures CollapseHyphens(w + t) == w + CollapseHyphens(t)
  {
    if w != [] {
      CollapseWord(w[1..], t);
      assert w + t == [w[0]] + (w[1..] + t);
      CollapseKeep(w[0], w[1..] + t);
      assert [w[0]] + (w[1..] + CollapseHyphens(t)) == w + CollapseHyphens(t);
    } else {
      assert w + t == t;
    }
  }

  /** One step of `CollapseHyphens` that keeps the first character. */
  lemma CollapseKeep(c: char, t: string)
    requires t != [] && !(c == '-' && t[0] == '-')
    ensures CollapseHyphens([c] + t) == [c] + CollapseHyphens(t)
  {
    assert ([c] + t)[1..] == t;
  }

  /** One step of `CollapseHyphens` that drops a hyphen followed by another. */
  lemma CollapseDrop(t: string)
    requires t != [] && t[0] == '-'
    ensures CollapseHyphens(['-'] + t) == CollapseHyphens(t)
  {
    assert (['-'] + t)[1..] == t;
  }

  /** Inside a word, an invalid character becomes a separator rather than disappearing. */
  lemma CleanSlugSeparates()
    ensures CleanSlug("a.b") == "a-b"
  {
    assert LowerAscii("a.b") == "a.b";
    assert ReplaceInvalid("a.b") == "a-b";
    assert CollapseHyphens("b") == "b";
    assert CollapseHyphens("-b") == "-b";
  }

  /** A run of `k` hyphens. */
  function Hyphens(k: nat): (h: string)
    ensures |h| == k && (k > 0 ==> h[0] == '-' && h[k - 1] == '-')
  {
    if k == 0 then [] else ['-'] + Hyphens(k - 1)
  }

  /** Collapsing works piece by piece where the pieces do not meet at two hyphens. */
  lemma {:induction false} CollapseAppend(a: string, b: string)
    requires a != [] && b != [] && !(a[|a| - 1] == '-' && b[0] == '-')
    ensures CollapseHyphens(a + b) == CollapseHyphens(a) + CollapseHyphens(b)
    decreases |a|
  {
    if |a| == 1 {
      assert (a + b)[1..] == b;
    } else {
      assert (a + b)[1..] == a[1..] + b;
      CollapseAppend(a[1..], b);
    }
  }

  /** A run of hyphens collapses to one hyphen. */
  lemma {:induction false} CollapseHyphenRun(k: nat)
    requires k >= 1
    ensures CollapseHyphens(Hyphens(k)) == "-"
  {
    if k > 1 {
      CollapseHyphenRun(k - 1);
      assert Hyphens(k)[1..] == Hyphens(k - 1);
    }
  }

  /** A run of hyphens in front of text that does not start with one leaves a single hyphen. */
  lemma CollapseHyphensThen(k: nat, t: string)
    requires k >= 1
    requires t == [] || t[0] != '-'
    ensures CollapseHyphens(Hyphens(k) + t) == "-" + CollapseHyphens(t)
  {
    CollapseHyphenRun(k);
    if t == [] {
      assert Hyphens(k) + t == Hyphens(k);
    } else {
      CollapseAppend(Hyphens(k), t);
    }
  }

  /** Each run of hyphens after some text not ending in one becomes exactly one hyphen between
      what precedes and what follows it, each collapsed on its own (`CollapseHyphensThen` is the
      case with nothing before). */
  lemma CollapseRun(w: string, k: nat, t: string)
    requires k >= 1
    requires w != [] && w[|w| - 1] != '-'
    requires t == [] || t[0] != '-'
    ensures CollapseHyphens(w + Hyphens(k) + t) == CollapseHyphens(w) + "-" + CollapseHyphens(t)
  {
    var ht := Hyphens(k) + t;
    var cw, ct := CollapseHyphens(w), CollapseHyphens(t);
    CollapseHyphensThen(k, t);
    assert w + Hyphens(k) + t == w + ht;
    CollapseAppend(w, ht);
    assert CollapseHyphens(w + ht) == cw + ("-" + ct);
    assert cw + ("-" + ct) == cw + "-" + ct;
  }

  /** A word: a non-empty run of letters and digits. */
  predicate IsWord(w: string) {
    w != [] && forall i :: 0 <= i < |w| ==> IsAlnum(w[i])
  }

  /** The maximal runs of ASCII letters and digits of `s`, in order; every other character
      separates them. */
  function Words(s: string): (ws: seq<string>)
    ensures s != [] && IsAlnum(s[0]) ==> ws != []
  {
    if s == [] then []
    else
      var ws := Words(s[1..]);
      if !IsAlnum(s[0]) then ws
      else if |s| > 1 && IsAlnum(s[1]) then [[s[0]] + ws[0]] + ws[1..]
      else [[s[0]]] + ws
  }

  /** `words.join('-')`. */
  function JoinWords(ws: seq<string>): string {
    if ws == [] then []
    else if |ws| == 1 then ws[0]
    else ws[0] + "-" + JoinWords(ws[1..])
  }

  /** Every piece `Words` returns is a word. */
  lemma {:induction false} WordsAreWords(s: string)
    ensures forall j :: 0 <= j < |Words(s)| ==> IsWord(Words(s)[j])
  {
    if s != [] {
      WordsAreWords(s[1..]);
      var ws := Words(s[1..]);
      if IsAlnum(s[0]) && |s| > 1 && IsAlnum(s[1]) {
        var r := Words(s);
        forall j | 0 <= j < |r| ensures IsWord(r[j]) {
          if j == 0 {
            assert IsWord(ws[0]);
            assert r[0] == [s[0]] + ws[0];
          } else {
            assert r[j] == ws[j];
          }
        }
      }
    }
  }

  /** There are no words exactly when there is no letter or digit. */
  lemma {:induction false} WordsEmptyIff(s: string)
    ensures Words(s) == [] <==> forall i :: 0 <= i < |s| ==> !IsAlnum(s[i])
  {
    if s != [] {
      WordsEmptyIff(s[1..]);
      assert forall i :: 1 <= i < |s| ==> s[i] == s[1..][i - 1];
    }
  }

  /** Two strings with the same letters and digits at the same places have the same words. */
  lemma {:induction false} WordsAgree(s: string, t: string)
    requires |s| == |t|
    requires forall i :: 0 <= i < |s| ==> (IsAlnum(s[i]) <==> IsAlnum(t[i]))
    requires forall i :: 0 <= i < |s| ==> IsAlnum(s[i]) ==> s[i] == t[i]
    ensures Words(s) == Words(t)
  {
    if s != [] {
      assert forall i :: 0 <= i < |s| - 1 ==> s[1..][i] == s[i + 1] && t[1..][i] == t[i + 1];
      WordsAgree(s[1..], t[1..]);
    }
  }

  /** A join of words starts and ends with a letter or digit. */
  lemma {:induction false} JoinWordsEdges(ws: seq<string>)
    requires ws != [] && forall j :: 0 <= j < |ws| ==> IsWord(ws[j])
    ensures var r := JoinWords(ws); r != [] && IsAlnum(r[0]) && IsAlnum(r[|r| - 1])
  {
    assert IsWord(ws[0]);
    if |ws| > 1 {
      assert IsWord(ws[1]);
      JoinWordsEdges(ws[1..]);
      var rest := JoinWords(ws[1..]);
      assert JoinWords(ws) == ws[0] + ("-" + rest);
    }
  }

  /** A letter glued to the first word is a letter in front of the join. */
  lemma JoinWordsGlue(c: char, ws: seq<string>)
    requires ws != []
    ensures JoinWords([[c] + ws[0]] + ws[1..]) == [c] + JoinWords(ws)
  {
    var vs := [[c] + ws[0]] + ws[1..];
    assert vs[1..] == ws[1..];
    if |ws| > 1 {
      assert JoinWords(vs) == ([c] + ws[0]) + "-" + JoinWords(ws[1..]);
    }
  }

  /** One hyphen when `c` is a hyphen, nothing otherwise. */
  function EdgeHyphen(c: char): string {
    if c == '-' then "-" else ""
  }

  /** What collapsing a non-empty string of slug characters gives: its words joined by single
      hyphens, with one hyphen kept at each end that had one; with no word at all, one hyphen. */
  function CollapsedForm(x: string): string
    requires x != []
  {
    if Words(x) == [] then "-"
    else EdgeHyphen(x[0]) + JoinWords(Words(x)) + EdgeHyphen(x[|x| - 1])
  }

  /** On a string of slug characters, collapsing gives `CollapsedForm`. */
  lemma {:induction false} CollapseWords(x: string)
    requires x != [] && AllSlugChars(x)
    ensures CollapseHyphens(x) == CollapsedForm(x)
    decreases |x|
  {
    if |x| == 1 {
      FormSingle(x);
    } else {
      assert AllSlugChars(x[1..]);
      CollapseWords(x[1..]);
      FormStep(x);
      CollapseUnfold(x);
    }
  }

  /** One step of `CollapseHyphens`. */
  lemma CollapseUnfold(x: string)
    requires |x| >= 2
    ensures CollapseHyphens(x) ==
      if x[0] == '-' && x[1] == '-' then CollapseHyphens(x[1..]) else [x[0]] + CollapseHyphens(x[1..])
  {
  }

  /** A single slug character is its own form. */
  lemma FormSingle(x: string)
    requires |x| == 1 && IsSlugChar(x[0])
    ensures CollapsedForm(x) == x
  {
    if IsAlnum(x[0]) {
      assert Words(x) == [[x[0]]];
      assert x == "" + [x[0]] + "";
    } else {
      assert Words(x) == [];
      assert x == [x[0]] && x[0] == '-';
    }
  }

  /** `CollapsedForm` takes the same step as `CollapseHyphens`: a hyphen followed by another
      goes, any other first character stays. */
  lemma FormStep(x: string)
    requires |x| >= 2 && AllSlugChars(x)
    ensures CollapsedForm(x) ==
      if x[0] == '-' && x[1] == '-' then CollapsedForm(x[1..]) else [x[0]] + CollapsedForm(x[1..])
  {
    if x[0] == '-' && x[1] == '-' {
      FormHyphens(x);
    } else if x[0] == '-' {
      FormHyphenWord(x);
    } else if IsAlnum(x[1]) {
      FormInWord(x);
    } else {
      FormWordEnd(x);
    }
  }

  lemma FormHyphens(x: string)
    requires |x| >= 2 && x[0] == '-' && x[1] == '-'
    ensures CollapsedForm(x) == CollapsedForm(x[1..])
  {
    var y := x[1..];
    assert y[0] == x[1] && y[|y| - 1] == x[|x| - 1];
    assert Words(x) == Words(y);
  }

  lemma FormHyphenWord(x: string)
    requires |x| >= 2 && x[0] == '-' && IsAlnum(x[1])
    ensures CollapsedForm(x) == ['-'] + CollapsedForm(x[1..])
  {
    TailForm(x);
    HeadHyphenForm(x);
    Cat3("-", JoinWords(Words(x[1..])), EdgeHyphen(x[|x| - 1]));
  }

  lemma FormInWord(x: string)
    requires |x| >= 2 && IsAlnum(x[0]) && IsAlnum(x[1])
    ensures CollapsedForm(x) == [x[0]] + CollapsedForm(x[1..])
  {
    TailForm(x);
    HeadWordForm(x);
    Cat3([x[0]], JoinWords(Words(x[1..])), EdgeHyphen(x[|x| - 1]));
  }

  /** The form of a tail that starts with a letter or digit. */
  lemma TailForm(x: string)
    requires |x| >= 2 && IsAlnum(x[1])
    ensures Words(x[1..]) != []
    ensures CollapsedForm(x[1..]) == "" + JoinWords(Words(x[1..])) + EdgeHyphen(x[|x| - 1])
  {
    var y := x[1..];
    assert y[0] == x[1] && y[|y| - 1] == x[|x| - 1];
  }

  /** The form of a hyphen in front of a word. */
  lemma HeadHyphenForm(x: string)
    requires |x| >= 2 && x[0] == '-' && IsAlnum(x[1])
    ensures CollapsedForm(x) == "-" + JoinWords(Words(x[1..])) + EdgeHyphen(x[|x| - 1])
  {
    assert Words(x) == Words(x[1..]);
    assert x[1..][0] == x[1];
  }

  /** The form of a letter or digit in front of a word. */
  lemma HeadWordForm(x: string)
    requires |x| >= 2 && IsAlnum(x[0]) && IsAlnum(x[1])
    ensures CollapsedForm(x) == "" + ([x[0]] + JoinWords(Words(x[1..]))) + EdgeHyphen(x[|x| - 1])
  {
    var c, ws := x[0], Words(x[1..]);
    assert x[1..][0] == x[1];
    assert ws != [] && Words(x) == [[c] + ws[0]] + ws[1..];
    JoinWordsGlue(c, ws);
  }

  lemma Cat3(a: string, j: string, e: string)
    ensures a + ("" + j + e) == a + j + e
    ensures a + ("" + j + e) == "" + (a + j) + e
  {
  }

  lemma FormWordEnd(x: string)
    requires |x| >= 2 && AllSlugChars(x) && IsAlnum(x[0]) && x[1] == '-'
    ensures CollapsedForm(x) == [x[0]] + CollapsedForm(x[1..])
  {
    var c, y := x[0], x[1..];
    assert y[0] == x[1] && y[|y| - 1] == x[|x| - 1];
    var ws, e := Words(y), EdgeHyphen(x[|x| - 1]);
    assert Words(x) == [[c]] + ws;
    if ws == [] {
      WordsEmptyIff(y);
      assert !IsAlnum(y[|y| - 1]) && IsSlugChar(x[|x| - 1]);
      assert JoinWords(Words(x)) == [c];
      assert [c] + "-" == "" + [c] + "-";
    } else {
      assert ([[c]] + ws)[1..] == ws;
      assert JoinWords(Words(x)) == [c] + "-" + JoinWords(ws);
      assert [c] + ("-" + JoinWords(ws) + e) == "" + ([c] + "-" + JoinWords(ws)) + e;
    }
  }

  /** Stripping removes exactly the edge hyphens around a text with none of its own. */
  lemma StripFrame(e1: string, j: string, e2: string)
    requires e1 == "" || e1 == "-"
    requires e2 == "" || e2 == "-"
    requires j != [] && j[0] != '-' && j[|j| - 1] != '-'
    ensures StripEdgeHyphens(e1 + j + e2) == j
  {
    var s := e1 + j + e2;
    var t := j + e2;
    if e1 == "-" {
      assert s[0] == '-' && s[1..] == t;
    } else {
      assert s == t;
    }
    if e2 == "-" {
      assert t[|t| - 1] == '-' && t[..|t| - 1] == j;
    } else {
      assert t == j;
    }
  }

  /** The cleaner, stated independently of its steps: the slug is the maximal runs of ASCII
      letters and digits of the lower-cased input, joined by single hyphens. Every invalid
      character or hyphen run between two runs thus becomes exactly one hyphen, and nothing is
      left at the ends. */
  lemma CleanSlugWords(value: string)
    ensures CleanSlug(value) == JoinWords(Words(LowerAscii(value)))
  {
    var l := LowerAscii(value);
    var x := ReplaceInvalid(l);
    WordsAgree(x, l);
    if x != [] {
      CollapseWords(x);
      var ws := Words(x);
      assert CollapseHyphens(x) == CollapsedForm(x);
      if ws != [] {
        WordsAreWords(x);
        JoinWordsEdges(ws);
        StripFrame(EdgeHyphen(x[0]), JoinWords(ws), EdgeHyphen(x[|x| - 1]));
      }
    }
  }
}
