/** `validateRussianResponse` of services/aiService.ts: keeps Cyrillic,
    whitespace, digits and punctuation, collapses whitespace runs to one
    space, trims, and falls back to a fixed greeting when fewer than ten
    UTF-16 code units remain. */
module Sanitizer {
  import opened Strings

  /** Membership in Unicode General Category P, what `\p{P}` matches. The
      table is not reproduced; the model relies only on the category holding
      no ASCII letter. */
  type PunctuationClass = f: char -> bool | forall c :: IsAsciiLetter(c) ==> !f(c)
    witness (c: char) => false

  /** The greeting returned when too little text survives. */
  const Greeting: string :=
    "Привет! Я Jarvis, " + "ваш помощник " + "в разработке. " + "Как могу помочь?"

  /** The minimum `length` of a cleaned reply. */
  const MinLength: nat := 10

  /** The class `[Ѐ-ӿԀ-ԯ\s\d\p{P}]`. */
  predicate Allowed(c: char, punct: PunctuationClass) {
    || ('\U{0400}' <= c <= '\U{052F}')
    || IsSpace(c)
    || IsAsciiDigit(c)
    || punct(c)
  }

  predicate AllAllowed(s: string, punct: PunctuationClass) {
    forall i :: 0 <= i < |s| ==> Allowed(s[i], punct)
  }

  /** Every whitespace character is a plain space U+0020. */
  predicate SpacesAreBlanks(s: string) {
    forall i :: 0 <= i < |s| && IsSpace(s[i]) ==> s[i] == ' '
  }

  predicate NoAdjacentSpace(s: string) {
    forall i :: 0 <= i < |s| - 1 ==> !(IsSpace(s[i]) && IsSpace(s[i + 1]))
  }

  /** The shape of every cleaned reply that is long enough to be returned. */
  predicate WellFormed(r: string, punct: PunctuationClass) {
    && AllAllowed(r, punct)
    && NoEdgeSpace(r)
    && NoAdjacentSpace(r)
    && Utf16Length(r) >= MinLength
  }

  /** Reference definition: the allowed non-whitespace characters of the
      raw reply, in order. This is the visible text a cleaned reply carries. */
  function Kept(s: string, punct: PunctuationClass): string {
    if |s| == 0 then ""
    else (if Allowed(s[0], punct) && !IsSpace(s[0]) then [s[0]] else "") + Kept(s[1..], punct)
  }

  /** `.replace(/[^…]/gu, '')`: deletes every character outside the class. */
  function Filter(s: string, punct: PunctuationClass): (r: string)
    ensures AllAllowed(r, punct)
  {
    if |s| == 0 then ""
    else (if Allowed(s[0], punct) then [s[0]] else "") + Filter(s[1..], punct)
  }

  lemma {:induction false} FilterVisible(s: string, punct: PunctuationClass)
    ensures Visible(Filter(s, punct)) == Kept(s, punct)
    decreases |s|
  {
    if |s| > 0 {
      FilterVisible(s[1..], punct);
      var head := if Allowed(s[0], punct) then [s[0]] else "";
      VisibleAppend(head, Filter(s[1..], punct));
    }
  }

  /** `.replace(/\s+/g, ' ')`: every maximal whitespace run becomes one
      space; everything else is kept in order. */
  function Collapse(s: string): (r: string)
    ensures NoAdjacentSpace(r)
    ensures SpacesAreBlanks(r)
    ensures forall c :: c in r ==> c == ' ' || c in s
    ensures (|r| > 0 && IsSpace(r[0])) <==> (|s| > 0 && IsSpace(s[0]))
    ensures Visible(r) == Visible(s)
    decreases |s|
  {
    if |s| == 0 then ""
    else if IsSpace(s[0]) then
      var rest := TrimStart(s);
      var tail := Collapse(rest);
      TrimStartVisible(s);
      PrependKeeps(' ', tail);
      assert forall c :: c in rest ==> c in s;
      [' '] + tail
    else
      var tail := Collapse(s[1..]);
      PrependKeeps(s[0], tail);
      assert s == [s[0]] + s[1..];
      [s[0]] + tail
  }

  /** Putting one character in front of a collapsed text: the result is
      still collapsed when a space is not followed by another one. */
  lemma PrependKeeps(h: char, tail: string)
    requires NoAdjacentSpace(tail) && SpacesAreBlanks(tail)
    requires IsSpace(h) ==> h == ' ' && (|tail| > 0 ==> !IsSpace(tail[0]))
    ensures NoAdjacentSpace([h] + tail) && SpacesAreBlanks([h] + tail)
    ensures Visible([h] + tail) == (if IsSpace(h) then "" else [h]) + Visible(tail)
    ensures forall c :: c in [h] + tail ==> c == h || c in tail
  {
    var r := [h] + tail;
    assert r[1..] == tail;
    assert forall i :: 1 <= i < |r| ==> r[i] == tail[i - 1];
  }

  lemma ConcatAssoc(a: string, b: string, c: string)
    ensures a + (b + c) == (a + b) + c
  {
  }

  /** A text that starts with a word keeps that word whole in front of the
      collapsed rest. */
  lemma {:induction false} CollapseHead(t: string)
    requires |t| > 0 && !IsSpace(t[0])
    ensures Collapse(t) == Head(t) + Collapse(t[|Head(t)|..])
    decreases |t|
  {
    var tail := t[1..];
    var ht := Head(t);
    assert ht == [t[0]] + Head(tail);
    assert Collapse(t) == [t[0]] + Collapse(tail);
    if |tail| > 0 && !IsSpace(tail[0]) {
      var h := Head(tail);
      var x := tail[|h|..];
      CollapseHead(tail);
      assert x == t[|ht|..];
      var cx := Collapse(x);
      assert Collapse(tail) == h + cx;
      ConcatAssoc([t[0]], h, cx);
    } else {
      assert Head(tail) == "";
      assert ht == [t[0]] && t[|ht|..] == tail;
    }
  }

  /** Word-level reference for `.replace(/\s+/g, ' ').trim()`: the words of
      the text, joined by single blanks. */
  lemma {:induction false} CollapseJoinsWords(s: string)
    ensures Trim(Collapse(s)) == Join(Words(s), ' ')
    decreases |s|, 1
  {
    if |s| == 0 {
    } else if IsSpace(s[0]) {
      var t := TrimStart(s);
      CollapseJoinsWords(t);
      WordsSkipSpace(s);
      TrimLeadingBlank(Collapse(t));
    } else {
      CollapseJoinsWordsAtWord(s);
    }
  }

  /** The word-first case of CollapseJoinsWords. */
  lemma {:induction false} CollapseJoinsWordsAtWord(s: string)
    requires |s| > 0 && !IsSpace(s[0])
    ensures Trim(Collapse(s)) == Join(Words(s), ' ')
    decreases |s|, 0
  {
    var h := Head(s);
    var rest := s[|h|..];
    assert Words(s) == [h] + Words(rest);
    TrimWord(h);
    if |rest| == 0 {
      CollapseWholeWord(s);
    } else {
      var u := TrimStart(rest);
      WordsSkipSpace(rest);
      CollapseWordThenRest(s);
      var c := Collapse(u);
      if |u| != 0 {
        CollapseJoinsWords(u);
        TrimJoinWord(h, c, Words(u));
      }
    }
  }

  /** A text that is one word collapses to itself. */
  lemma CollapseWholeWord(s: string)
    requires |s| > 0 && !IsSpace(s[0]) && |Head(s)| == |s|
    ensures Collapse(s) == s
  {
    CollapseHead(s);
    assert s[|s|..] == "";
  }

  /** After the first word comes one blank, then the collapse of the rest. */
  lemma CollapseWordThenRest(s: string)
    requires |s| > 0 && !IsSpace(s[0]) && |Head(s)| < |s|
    ensures var h := Head(s);
      var u := TrimStart(s[|h|..]);
      && Collapse(s) == (h + [' ']) + Collapse(u)
      && (|u| > 0 ==> Collapse(u)[0] == u[0])
      && (|u| == 0 ==> Collapse(s) == h + [' '])
  {
    var h := Head(s);
    var rest := s[|h|..];
    var u := TrimStart(rest);
    CollapseHead(s);
    var c := Collapse(u);
    assert Collapse(rest) == [' '] + c;
    ConcatAssoc(h, [' '], c);
    if |u| == 0 {
      assert (h + [' ']) + c == h + [' '];
    }
  }

  /** A leading blank is trimmed away. */
  lemma TrimLeadingBlank(c: string)
    ensures Trim([' '] + c) == Trim(c)
  {
    assert ([' '] + c)[1..] == c;
  }

  /** Filter, collapse and trim: the text before the length check. */
  function Clean(s: string, punct: PunctuationClass): string {
    Trim(Collapse(Filter(s, punct)))
  }

  /** The cleaned text is the words of the filtered text, one blank apart. */
  lemma CleanJoinsWords(s: string, punct: PunctuationClass)
    ensures Clean(s, punct) == Join(Words(Filter(s, punct)), ' ')
  {
    CollapseJoinsWords(Filter(s, punct));
  }

  /** A piece cut out of a string keeps the string's character-level
      properties. */
  lemma SliceKeeps(c: string, i: nat, j: nat, punct: PunctuationClass)
    requires i <= j <= |c|
    ensures AllAllowed(c, punct) ==> AllAllowed(c[i..j], punct)
    ensures SpacesAreBlanks(c) ==> SpacesAreBlanks(c[i..j])
    ensures NoAdjacentSpace(c) ==> NoAdjacentSpace(c[i..j])
  {
    var r := c[i..j];
    assert forall k :: 0 <= k < |r| ==> r[k] == c[i + k];
  }

  lemma CollapseAllowed(f: string, punct: PunctuationClass)
    requires AllAllowed(f, punct)
    ensures AllAllowed(Collapse(f), punct)
  {
    var c := Collapse(f);
    forall k | 0 <= k < |c| ensures Allowed(c[k], punct) {
      assert c[k] in c;
      if c[k] != ' ' {
        var m :| 0 <= m < |f| && f[m] == c[k];
      }
    }
  }

  lemma CleanShape(s: string, punct: PunctuationClass)
    ensures AllAllowed(Clean(s, punct), punct)
    ensures NoEdgeSpace(Clean(s, punct))
    ensures NoAdjacentSpace(Clean(s, punct))
    ensures SpacesAreBlanks(Clean(s, punct))
    ensures Visible(Clean(s, punct)) == Kept(s, punct)
  {
    var f := Filter(s, punct);
    var c := Collapse(f);
    var r := Trim(c);
    assert Clean(s, punct) == r;
    CleanSlice(c, punct);
    TrimNoEdgeSpace(c);
    TrimVisible(c);
    FilterVisible(s, punct);
    CollapseAllowed(f, punct);
  }

  lemma CleanSlice(c: string, punct: PunctuationClass)
    ensures AllAllowed(c, punct) ==> AllAllowed(Trim(c), punct)
    ensures SpacesAreBlanks(c) ==> SpacesAreBlanks(Trim(c))
    ensures NoAdjacentSpace(c) ==> NoAdjacentSpace(Trim(c))
  {
    var t := TrimStart(c);
    var r := TrimEnd(t);
    SliceKeeps(c, |c| - |t|, |c|, punct);
    assert t == c[|c| - |t|..|c|];
    SliceKeeps(t, 0, |r|, punct);
    assert r == t[0..|r|];
  }

  lemma GreetingIsNotWellFormed(punct: PunctuationClass)
    ensures !WellFormed(Greeting, punct)
  {
    var c := Greeting[10];
    assert c == 'J';
    assert IsAsciiLetter(c);
    assert !punct(c);
    assert !Allowed(c, punct);
  }

  /** `validateRussianResponse`. A reply is either the fixed greeting or a
      well-formed text whose visible content is exactly the allowed visible
      characters of the raw reply; the two cases cannot be confused; and a raw
      reply with at least ten allowed visible characters is never replaced. */
  function Validate(s: string, punct: PunctuationClass): (r: string)
    ensures r == Greeting || WellFormed(r, punct)
    ensures WellFormed(r, punct) <==> r != Greeting
    ensures r != Greeting ==> Visible(r) == Kept(s, punct)
    ensures r != Greeting ==> SpacesAreBlanks(r)
    ensures |Kept(s, punct)| >= MinLength ==> r != Greeting
    ensures r == Greeting <==> Utf16Length(Join(Words(Filter(s, punct)), ' ')) < MinLength
    ensures r != Greeting ==> r == Join(Words(Filter(s, punct)), ' ')
    ensures |r| > 0
  {
    var c := Clean(s, punct);
    CleanJoinsWords(s, punct);
    CleanShape(s, punct);
    GreetingIsNotWellFormed(punct);
    if Utf16Length(c) < MinLength then Greeting else c
  }
}
