/**
 The class-key normaliser of the admit-card renderer: a free-form class
 label is lower-cased and every run `\s*-\s*` is replaced by a single
 hyphen, so that "11 - Arts" finds the schedule stored under "11-arts".
 */
module ClassKey {
  import opened Common

  /** Length of the whitespace run at the front of `s`. */
  function SpaceRun(s: string): (n: nat)
    ensures n <= |s|
    ensures n < |s| ==> !IsJsSpace(s[n])
    ensures n > 0 ==> IsJsSpace(s[0])
  {
    if |s| > 0 && IsJsSpace(s[0]) then 1 + SpaceRun(s[1..]) else 0
  }

  /** The pattern `\s*-\s*` matches at the front of `s`: a (possibly empty)
      whitespace run followed by a hyphen. */
  predicate HyphenAt(s: string) {
    SpaceRun(s) < |s| && s[SpaceRun(s)] == '-'
  }

  /** Where the match at the front of `s` ends: past the leading blanks,
      the hyphen and the greedy trailing blanks. */
  function MatchEnd(s: string): (e: nat)
    requires HyphenAt(s)
    ensures SpaceRun(s) < e <= |s|
    ensures e < |s| ==> !IsJsSpace(s[e])
  {
    var k := SpaceRun(s);
    var t := SpaceRun(s[k + 1..]);
    assert t < |s[k + 1..]| ==> s[k + 1..][t] == s[k + 1 + t];
    k + 1 + t
  }

  /** No whitespace character sits right before or right after a hyphen. */
  predicate HyphensTight(s: string) {
    forall i :: 0 <= i < |s| && s[i] == '-' ==>
      (i > 0 ==> !IsJsSpace(s[i - 1])) && (i + 1 < |s| ==> !IsJsSpace(s[i + 1]))
  }

  /** `s` with every whitespace character removed. */
  function Strip(s: string): string {
    if |s| == 0 then []
    else if IsJsSpace(s[0]) then Strip(s[1..])
    else [s[0]] + Strip(s[1..])
  }

  /** The character just before the end of a non-empty run is a blank. */
  lemma {:induction false} LastBlankOfRun(s: string)
    ensures SpaceRun(s) > 0 ==> IsJsSpace(s[SpaceRun(s) - 1])
    decreases |s|
  {
    if SpaceRun(s) > 1 {
      LastBlankOfRun(s[1..]);
    }
  }

  /** Dropping a leading whitespace run does not change what `Strip` keeps. */
  lemma {:induction false} StripSkipsSpaceRun(s: string)
    ensures Strip(s[SpaceRun(s)..]) == Strip(s)
    decreases |s|
  {
    if |s| > 0 && IsJsSpace(s[0]) {
      StripSkipsSpaceRun(s[1..]);
      assert s[1..][SpaceRun(s[1..])..] == s[SpaceRun(s)..];
    }
  }

  /** The global replace of the pattern `\s*-\s*` by `-`, scanning left to
      right: where the pattern matches, the whole run (leading blanks, the
      hyphen and the greedy trailing blanks) becomes one hyphen; elsewhere
      the character is kept and the scan moves on by one. */
  function ReplaceHyphenRuns(s: string): (r: string)
    ensures |r| <= |s|
    decreases |s|
  {
    if |s| == 0 then []
    else if HyphenAt(s) then "-" + ReplaceHyphenRuns(s[MatchEnd(s)..])
    else [s[0]] + ReplaceHyphenRuns(s[1..])
  }

  /** The first output character shows whether the pattern matched at the
      front of the input. */
  lemma ReplaceFirst(s: string)
    requires |s| > 0
    ensures |ReplaceHyphenRuns(s)| > 0
    ensures ReplaceHyphenRuns(s)[0] == (if HyphenAt(s) then '-' else s[0])
  {
  }

  /** The replacement introduces no character but the hyphen. */
  lemma {:induction false} ReplaceKeepsAlphabet(s: string)
    ensures forall c :: c in ReplaceHyphenRuns(s) ==> c == '-' || c in s
    decreases |s|
  {
    if |s| > 0 {
      var next := if HyphenAt(s) then MatchEnd(s) else 1;
      ReplaceKeepsAlphabet(s[next..]);
      forall c | c in s[next..] ensures c in s {
        var j :| 0 <= j < |s[next..]| && s[next..][j] == c;
        assert s[next + j] == c;
      }
    }
  }

  /** After the replacement no whitespace touches a hyphen. */
  lemma {:induction false} ReplaceMakesTight(s: string)
    ensures HyphensTight(ReplaceHyphenRuns(s))
    decreases |s|
  {
    if |s| > 0 {
      if HyphenAt(s) {
        var e := MatchEnd(s);
        var tail := ReplaceHyphenRuns(s[e..]);
        ReplaceMakesTight(s[e..]);
        if |tail| > 0 {
          ReplaceFirst(s[e..]);
          assert !IsJsSpace(tail[0]);
        }
        HyphenThenTight(tail);
      } else {
        var tail := ReplaceHyphenRuns(s[1..]);
        ReplaceMakesTight(s[1..]);
        if |tail| > 0 {
          ReplaceFirst(s[1..]);
          // a blank that does not start a match is not followed by one either
          if IsJsSpace(s[0]) {
            assert SpaceRun(s) == 1 + SpaceRun(s[1..]);
            assert !HyphenAt(s[1..]);
          }
        }
        CharThenTight(s[0], tail);
      }
    }
  }

  /** A hyphen in front of a tight string that does not start with a blank
      keeps it tight. */
  lemma HyphenThenTight(tail: string)
    requires HyphensTight(tail) && (|tail| > 0 ==> !IsJsSpace(tail[0]))
    ensures HyphensTight("-" + tail)
  {
    var r := "-" + tail;
    forall i | 0 <= i < |r| && r[i] == '-'
      ensures (i > 0 ==> !IsJsSpace(r[i - 1])) && (i + 1 < |r| ==> !IsJsSpace(r[i + 1]))
    {
      if i > 0 { assert r[i] == tail[i - 1]; }
      if i + 1 < |r| { assert r[i + 1] == tail[i]; }
    }
  }

  /** A character in front of a tight string keeps it tight, unless a blank
      lands before a leading hyphen or a hyphen before a leading blank. */
  lemma CharThenTight(c: char, tail: string)
    requires HyphensTight(tail)
    requires |tail| > 0 && IsJsSpace(c) ==> tail[0] != '-'
    requires |tail| > 0 && c == '-' ==> !IsJsSpace(tail[0])
    ensures HyphensTight([c] + tail)
  {
    var r := [c] + tail;
    forall i | 0 <= i < |r| && r[i] == '-'
      ensures (i > 0 ==> !IsJsSpace(r[i - 1])) && (i + 1 < |r| ==> !IsJsSpace(r[i + 1]))
    {
      if i > 1 { assert r[i] == tail[i - 1] && r[i - 1] == tail[i - 2]; }
      if i + 1 < |r| && i > 0 { assert r[i + 1] == tail[i]; }
    }
  }

  /** `Strip` on a string with a known first character. */
  lemma StripCons(c: char, tail: string)
    ensures Strip([c] + tail) == if IsJsSpace(c) then Strip(tail) else [c] + Strip(tail)
  {
    assert ([c] + tail)[1..] == tail;
  }

  /** Stripping a string that starts with a match keeps just its hyphen from
      the matched run. */
  lemma StripOfMatch(s: string)
    requires HyphenAt(s)
    ensures Strip(s) == ['-'] + Strip(s[MatchEnd(s)..])
  {
    var k := SpaceRun(s);
    StripSkipsSpaceRun(s);
    assert s[k..] == [s[k]] + s[k + 1..];
    StripCons('-', s[k + 1..]);
    StripSkipsSpaceRun(s[k + 1..]);
    assert s[k + 1..][SpaceRun(s[k + 1..])..] == s[MatchEnd(s)..];
  }

  /** The replacement only ever removes whitespace. */
  lemma {:induction false} ReplaceOnlyDropsBlanks(s: string)
    ensures Strip(ReplaceHyphenRuns(s)) == Strip(s)
    decreases |s|
  {
    if |s| > 0 {
      if HyphenAt(s) {
        var rest := s[MatchEnd(s)..];
        ReplaceOnlyDropsBlanks(rest);
        StripCons('-', ReplaceHyphenRuns(rest));
        StripOfMatch(s);
      } else {
        ReplaceOnlyDropsBlanks(s[1..]);
        StripCons(s[0], ReplaceHyphenRuns(s[1..]));
        StripCons(s[0], s[1..]);
        assert [s[0]] + s[1..] == s;
      }
    }
  }

  /** A string in which no whitespace touches a hyphen is left unchanged. */
  lemma {:induction false} ReplaceFixesTight(s: string)
    requires HyphensTight(s)
    ensures ReplaceHyphenRuns(s) == s
    decreases |s|
  {
    if |s| > 0 {
      assert HyphensTight(s[1..]) by {
        forall i | 0 <= i < |s[1..]| && s[1..][i] == '-'
          ensures (i > 0 ==> !IsJsSpace(s[1..][i - 1])) && (i + 1 < |s[1..]| ==> !IsJsSpace(s[1..][i + 1]))
        {
          assert s[i + 1] == '-';
        }
      }
      if HyphenAt(s) {
        LastBlankOfRun(s);
        assert SpaceRun(s) == 0;
        assert SpaceRun(s[1..]) == 0 by {
          if |s| > 1 { assert s[1..][0] == s[1]; }
        }
        assert MatchEnd(s) == 1;
        ReplaceFixesTight(s[1..]);
      } else {
        ReplaceFixesTight(s[1..]);
      }
    }
  }

  /** Every character of `b` is a blank. */
  predicate AllBlank(b: string) {
    forall i :: 0 <= i < |b| ==> IsJsSpace(b[i])
  }

  /** No character of `p` is a blank or a hyphen. */
  predicate Plain(p: string) {
    forall i :: 0 <= i < |p| ==> !IsJsSpace(p[i]) && p[i] != '-'
  }

  /** A run of blanks in front of a non-blank is measured exactly. */
  lemma {:induction false} SpaceRunOfBlanks(b: string, x: string)
    requires AllBlank(b) && (|x| > 0 ==> !IsJsSpace(x[0]))
    ensures SpaceRun(b + x) == |b|
    decreases |b|
  {
    if |b| > 0 {
      assert (b + x)[1..] == b[1..] + x;
      SpaceRunOfBlanks(b[1..], x);
    } else {
      assert b + x == x;
    }
  }

  /** Plain characters are copied through one by one. */
  lemma {:induction false} PlainPrefix(p: string, x: string)
    requires Plain(p)
    ensures ReplaceHyphenRuns(p + x) == p + ReplaceHyphenRuns(x)
    decreases |p|
  {
    if |p| > 0 {
      var s := p + x;
      assert s[0] == p[0];
      assert SpaceRun(s) == 0 && !HyphenAt(s);
      assert ReplaceHyphenRuns(s) == [p[0]] + ReplaceHyphenRuns(s[1..]);
      assert s[1..] == p[1..] + x;
      assert Plain(p[1..]) by {
        forall i | 0 <= i < |p[1..]| ensures !IsJsSpace(p[1..][i]) && p[1..][i] != '-' {
          assert p[1..][i] == p[i + 1];
        }
      }
      PlainPrefix(p[1..], x);
      Assoc([p[0]], p[1..], ReplaceHyphenRuns(x));
      assert [p[0]] + p[1..] == p;
    } else {
      assert p + x == x;
    }
  }

  /** Concatenation regroups freely. */
  lemma Assoc(a: string, b: string, c: string)
    ensures (a + b) + c == a + (b + c)
  {
  }

  /** The separator `blanks - blanks`. */
  function Sep(b1: string, b2: string): string {
    b1 + "-" + b2
  }

  /** A separator in front of a part that starts with no blank collapses to
      a single hyphen. */
  lemma Separator(b1: string, b2: string, q: string)
    requires AllBlank(b1) && AllBlank(b2) && (|q| > 0 ==> !IsJsSpace(q[0]))
    ensures ReplaceHyphenRuns(Sep(b1, b2) + q) == "-" + ReplaceHyphenRuns(q)
  {
    var s := Sep(b1, b2) + q;
    Assoc(b1 + "-", b2, q);
    Assoc(b1, "-", b2 + q);
    assert s == b1 + ("-" + (b2 + q));
    SpaceRunOfBlanks(b1, "-" + (b2 + q));
    assert s[|b1|] == '-';
    assert s[|b1| + 1..] == b2 + q;
    SpaceRunOfBlanks(b2, q);
    assert MatchEnd(s) == |b1| + 1 + |b2|;
    assert s[|b1| + 1 + |b2|..] == q;
  }

  /** A plain word, a separator and another plain word come out as the two
      words joined by a single hyphen. */
  lemma PlainSeparatorPlain(p: string, b1: string, b2: string, q: string)
    requires Plain(p) && Plain(q) && |q| > 0 && AllBlank(b1) && AllBlank(b2)
    ensures ReplaceHyphenRuns(p + Sep(b1, b2) + q) == p + "-" + q
  {
    Assoc(p, Sep(b1, b2), q);
    PlainPrefix(p, Sep(b1, b2) + q);
    Separator(b1, b2, q);
    PlainPrefix(q, "");
    assert q + "" == q;
    Assoc(p, "-", q);
  }

  /** `normalizeClassKey`: lower-case the label, then collapse every
      `\s*-\s*` run to `-`. */
  function NormalizeClassKey(classLabel: string): (key: string)
    ensures HasNoUpper(key)
    ensures HyphensTight(key)
    ensures |key| <= |classLabel|
  {
    var key := ReplaceHyphenRuns(Lower(classLabel));
    ReplaceMakesTight(Lower(classLabel));
    ReplaceKeepsAlphabet(Lower(classLabel));
    assert forall i :: 0 <= i < |key| ==> !IsUpperAscii(key[i]) by {
      forall i | 0 <= i < |key| ensures !IsUpperAscii(key[i]) {
        assert key[i] in key;
      }
    }
    key
  }

  /** A label that is already lower-case and tight is its own key. */
  lemma FixedPointWhenCanonical(classLabel: string)
    requires HasNoUpper(classLabel) && HyphensTight(classLabel)
    ensures NormalizeClassKey(classLabel) == classLabel
  {
    LowerFixesLowercase(classLabel);
    ReplaceFixesTight(classLabel);
  }

  /** Normalising twice is normalising once. */
  lemma NormalizeIdempotent(classLabel: string)
    ensures NormalizeClassKey(NormalizeClassKey(classLabel)) == NormalizeClassKey(classLabel)
  {
    FixedPointWhenCanonical(NormalizeClassKey(classLabel));
  }

  /** Lower-casing and stripping whitespace commute. */
  lemma {:induction false} StripLower(s: string)
    ensures Strip(Lower(s)) == Lower(Strip(s))
    decreases |s|
  {
    if |s| > 0 {
      var c, rest := s[0], s[1..];
      StripLower(rest);
      assert s == [c] + rest;
      LowerConcat([c], rest);
      assert Lower([c]) == [LowerChar(c)];
      StripCons(LowerChar(c), Lower(rest));
      StripCons(c, rest);
      if !IsJsSpace(c) {
        LowerConcat([c], Strip(rest));
      }
    }
  }

  /** The normaliser never guesses: the key keeps every non-blank character
      of the label, in order, only lower-cased. So two labels reach the same
      key only if they agree once case and whitespace are ignored. */
  lemma NormalizeKeepsNonBlanks(classLabel: string)
    ensures Strip(NormalizeClassKey(classLabel)) == Lower(Strip(classLabel))
  {
    StripLower(classLabel);
    ReplaceOnlyDropsBlanks(Lower(classLabel));
  }

  lemma SameKeyOnlyForSameText(a: string, b: string)
    requires NormalizeClassKey(a) == NormalizeClassKey(b)
    ensures Lower(Strip(a)) == Lower(Strip(b))
  {
    NormalizeKeepsNonBlanks(a);
    NormalizeKeepsNonBlanks(b);
  }

  /** Two plain words around a `blanks - blanks` separator reach the key
      made of the lower-cased words joined by one hyphen, whatever the
      blanks and the case. */
  lemma NormalizeSeparated(p: string, b1: string, b2: string, q: string)
    requires Plain(p) && Plain(q) && |q| > 0 && AllBlank(b1) && AllBlank(b2)
    ensures NormalizeClassKey(p + Sep(b1, b2) + q) == Lower(p) + "-" + Lower(q)
  {
    LowerConcat(p + Sep(b1, b2), q);
    LowerConcat(p, Sep(b1, b2));
    LowerConcat(b1 + "-", b2);
    LowerConcat(b1, "-");
    assert Lower("-") == "-";
    assert Lower(b1) == b1 && Lower(b2) == b2;
    assert Lower(Sep(b1, b2)) == Sep(b1, b2);
    assert Plain(Lower(p)) && Plain(Lower(q));
    PlainSeparatorPlain(Lower(p), b1, b2, Lower(q));
  }

  /** The formatting variants "11 - Arts", "11-ARTS" and "11 -arts" all
      reach "11-arts". */
  lemma ArtsVariantKeys(text: string, b1: string, b2: string, word: string)
    requires b1 == " " || b1 == ""
    requires b2 == " " || b2 == ""
    requires word == "Arts" || word == "ARTS" || word == "arts"
    requires text == "11" + Sep(b1, b2) + word
    ensures NormalizeClassKey(text) == "11-arts"
  {
    assert Plain("11") && Plain(word) && AllBlank(b1) && AllBlank(b2);
    NormalizeSeparated("11", b1, b2, word);
    assert Lower("11") == "11" && Lower(word) == "arts";
  }
}
