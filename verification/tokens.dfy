/** Python's `str.split()` with no separator and `" ".join`, the two string
    operations the UCI loops use to read a command line and rebuild a FEN. */
module Tokens {

  /** The characters `str.isspace()` accepts, which `str.split()` treats as
      separators. */
  predicate IsSpace(c: char)
  {
    c == ' ' || ('\t' <= c <= '\r') || ('\U{1C}' <= c <= '\U{1F}') || c == '\U{85}' || c == '\U{A0}'
    || c == '\U{1680}' || ('\U{2000}' <= c <= '\U{200A}') || c == '\U{2028}' || c == '\U{2029}'
    || c == '\U{202F}' || c == '\U{205F}' || c == '\U{3000}'
  }

  /** Only separators (or nothing at all). */
  predicate Blank(s: string)
  {
    forall i :: 0 <= i < |s| ==> IsSpace(s[i])
  }

  /** A token `str.split()` can produce: non-empty and free of separators. */
  predicate IsToken(t: string)
  {
    t != [] && forall i :: 0 <= i < |t| ==> !IsSpace(t[i])
  }

  predicate AllTokens(ts: seq<string>)
  {
    forall j :: 0 <= j < |ts| ==> IsToken(ts[j])
  }

  /** The longest prefix of `s` without a separator. */
  function Word(s: string): (w: string)
    ensures |w| <= |s| && w == s[..|w|]
    ensures forall i :: 0 <= i < |w| ==> !IsSpace(w[i])
    ensures |w| < |s| ==> IsSpace(s[|w|])
    ensures s != [] && !IsSpace(s[0]) ==> w != []
  {
    if s == [] || IsSpace(s[0]) then [] else [s[0]] + Word(s[1..])
  }

  /** `s.split()`: the maximal runs of non-separators, in order. */
  function Split(s: string): (parts: seq<string>)
    ensures AllTokens(parts)
    decreases |s|
  {
    if s == [] then []
    else if IsSpace(s[0]) then Split(s[1..])
    else
      var w := Word(s);
      [w] + Split(s[|w|..])
  }

  /** `sep.join(ts)`. */
  function Join(ts: seq<string>, sep: string): string
  {
    if ts == [] then []
    else if |ts| == 1 then ts[0]
    else ts[0] + sep + Join(ts[1..], sep)
  }

  /** `seps[0] + ts[0] + seps[1] + ... + ts[n - 1] + seps[n]`: tokens with
      the whitespace runs around and between them. */
  function Interleave(seps: seq<string>, ts: seq<string>): string
    requires |seps| == |ts| + 1
    decreases |ts|
  {
    if ts == [] then seps[0] else seps[0] + ts[0] + Interleave(seps[1..], ts[1..])
  }

  /** Separator runs for `n = |seps| - 1` tokens: all whitespace, and every
      run between two tokens is non-empty; the leading and trailing runs
      may be empty. */
  predicate Separators(seps: seq<string>)
  {
    |seps| >= 1
    && (forall j :: 0 <= j < |seps| ==> Blank(seps[j]))
    && (forall j :: 0 < j < |seps| - 1 ==> seps[j] != [])
  }

  /** Every line is its tokens, in order, separated by non-empty
      whitespace runs, with optional whitespace before and after: the
      tokens are the maximal whitespace-free runs of the line. */
  lemma {:induction false} SplitLayout(s: string) returns (seps: seq<string>)
    ensures AllTokens(Split(s))
    ensures |seps| == |Split(s)| + 1 && Separators(seps)
    ensures Interleave(seps, Split(s)) == s
    ensures s != [] && IsSpace(s[0]) ==> seps[0] != []
    decreases |s|
  {
    if s == [] {
      seps := [[]];
    } else if IsSpace(s[0]) {
      var inner := SplitLayout(s[1..]);
      seps := LayoutAfterSpace(s[0], s[1..], Split(s[1..]), inner);
      assert [s[0]] + s[1..] == s;
    } else {
      var w := Word(s);
      var rest := s[|w|..];
      var inner := SplitLayout(rest);
      seps := LayoutAfterWord(w, rest, Split(rest), inner);
      assert w + rest == s;
    }
  }

  /** A whitespace character in front of a laid-out line joins its
      leading run. */
  lemma LayoutAfterSpace(c: char, rest: string, ts: seq<string>, inner: seq<string>) returns (seps: seq<string>)
    requires IsSpace(c)
    requires |inner| == |ts| + 1 && Separators(inner) && Interleave(inner, ts) == rest
    ensures |seps| == |ts| + 1 && Separators(seps)
    ensures Interleave(seps, ts) == [c] + rest
    ensures seps[0] != []
  {
    seps := [[c] + inner[0]] + inner[1..];
    InterleaveHead([c], inner, ts);
    forall j | 0 <= j < |seps|
      ensures Blank(seps[j])
    {
      if j == 0 {
        assert forall i :: 0 < i < |seps[0]| ==> seps[0][i] == inner[0][i - 1];
      } else {
        assert seps[j] == inner[j];
      }
    }
  }

  /** A token in front of a laid-out line that is empty or starts with
      whitespace becomes its first token, after an empty leading run. */
  lemma LayoutAfterWord(w: string, rest: string, ts: seq<string>, inner: seq<string>) returns (seps: seq<string>)
    requires |inner| == |ts| + 1 && Separators(inner) && Interleave(inner, ts) == rest
    requires ts != [] ==> rest != [] && IsSpace(rest[0]) && inner[0] != []
    ensures |seps| == |ts| + 2 && Separators(seps)
    ensures Interleave(seps, [w] + ts) == w + rest
  {
    seps := [[]] + inner;
    assert seps[1..] == inner;
    assert ([w] + ts)[1..] == ts;
    assert Interleave(seps, [w] + ts) == [] + w + Interleave(inner, ts);
  }

  /** Whitespace put in front of the first run is whitespace put in front
      of the whole line. */
  lemma InterleaveHead(a: string, seps: seq<string>, ts: seq<string>)
    requires |seps| == |ts| + 1
    ensures Interleave([a + seps[0]] + seps[1..], ts) == a + Interleave(seps, ts)
  {
    var moved := [a + seps[0]] + seps[1..];
    assert moved[1..] == seps[1..];
  }

  /** Conversely, a line laid out as tokens between separator runs splits
      into exactly those tokens. */
  lemma {:induction false} LayoutSplits(seps: seq<string>, ts: seq<string>)
    requires |seps| == |ts| + 1 && Separators(seps) && AllTokens(ts)
    ensures Split(Interleave(seps, ts)) == ts
    decreases |ts|, |seps[0]|
  {
    if seps[0] != [] {
      var shorter := DropLeadingSpace(seps, ts);
      LayoutSplits(shorter, ts);
      SplitSpace(seps[0][0], Interleave(shorter, ts));
    } else if ts != [] {
      TokenThenLayout(seps, ts);
      SeparatorsTail(seps);
      LayoutSplits(seps[1..], ts[1..]);
      SplitToken(ts[0], Interleave(seps[1..], ts[1..]));
      assert ts == [ts[0]] + ts[1..];
    }
  }

  /** A leading whitespace character produces no token. */
  lemma SplitSpace(c: char, rest: string)
    requires IsSpace(c)
    ensures Split([c] + rest) == Split(rest)
  {
    assert ([c] + rest)[1..] == rest;
  }

  /** A token followed by nothing or by whitespace comes off first. */
  lemma SplitToken(t: string, rest: string)
    requires IsToken(t)
    requires rest == [] || IsSpace(rest[0])
    ensures Split(t + rest) == [t] + Split(rest)
  {
    WordOfToken(t, rest);
    assert (t + rest)[0] == t[0];
    assert (t + rest)[|t|..] == rest;
  }

  /** Taking the first whitespace character off a non-empty leading run. */
  lemma DropLeadingSpace(seps: seq<string>, ts: seq<string>) returns (shorter: seq<string>)
    requires |seps| == |ts| + 1 && Separators(seps) && seps[0] != []
    ensures |shorter| == |ts| + 1 && Separators(shorter) && |shorter[0]| < |seps[0]|
    ensures Interleave(seps, ts) == [seps[0][0]] + Interleave(shorter, ts)
    ensures IsSpace(Interleave(seps, ts)[0])
  {
    shorter := [seps[0][1..]] + seps[1..];
    forall j | 0 <= j < |shorter|
      ensures Blank(shorter[j])
    {
      if j == 0 {
        assert forall i :: 0 <= i < |shorter[0]| ==> shorter[0][i] == seps[0][i + 1];
      } else {
        assert shorter[j] == seps[j];
      }
    }
    InterleaveHead([seps[0][0]], shorter, ts);
    assert [seps[0][0]] + seps[0][1..] == seps[0];
    assert shorter[1..] == seps[1..];
  }

  /** With an empty leading run the line starts with its first token, and
      what follows that token is empty or starts with whitespace. */
  lemma TokenThenLayout(seps: seq<string>, ts: seq<string>)
    requires |seps| == |ts| + 1 && Separators(seps) && seps[0] == [] && ts != []
    ensures Interleave(seps, ts) == ts[0] + Interleave(seps[1..], ts[1..])
    ensures var rest := Interleave(seps[1..], ts[1..]); rest == [] || IsSpace(rest[0])
  {
    var rest := Interleave(seps[1..], ts[1..]);
    assert seps[0] + ts[0] == ts[0];
    if ts[1..] == [] {
      assert rest == seps[1];
      assert Blank(seps[1]);
    } else {
      assert seps[1] != [];
      assert rest == seps[1] + ts[1] + Interleave(seps[2..], ts[2..]) by {
        assert seps[1..][1..] == seps[2..] && ts[1..][1..] == ts[2..];
      }
      assert rest[0] == seps[1][0];
    }
  }

  /** The runs after the first still separate the tokens after the first. */
  lemma SeparatorsTail(seps: seq<string>)
    requires Separators(seps) && |seps| >= 2
    ensures Separators(seps[1..])
  {
    assert forall j :: 0 <= j < |seps| - 1 ==> seps[1..][j] == seps[j + 1];
  }

  /** A line splits into no tokens exactly when it is blank. */
  lemma {:induction false} SplitEmptyIffBlank(s: string)
    ensures Split(s) == [] <==> Blank(s)
    decreases |s|
  {
    if s != [] && IsSpace(s[0]) {
      SplitEmptyIffBlank(s[1..]);
      assert Blank(s) <==> Blank(s[1..]) by {
        if Blank(s[1..]) {
          forall i | 0 <= i < |s| ensures IsSpace(s[i]) {
            if i > 0 { assert s[i] == s[1..][i - 1]; }
          }
        }
      }
    }
  }

  /** A token followed by a separator or by nothing is a whole word. */
  lemma WordOfToken(t: string, rest: string)
    requires IsToken(t)
    requires rest == [] || IsSpace(rest[0])
    ensures Word(t + rest) == t
  {
    assert (t + rest)[..|t|] == t;
  }

  /** A token, one space, then anything: the token comes off first. */
  lemma SplitCons(t: string, rest: string)
    requires IsToken(t)
    ensures Split(t + " " + rest) == [t] + Split(rest)
  {
    assert t + " " + rest == t + (" " + rest);
    SplitToken(t, " " + rest);
    SplitSpace(' ', rest);
  }

  /** Splitting tokens joined by single spaces gives the tokens back. */
  lemma {:induction false} SplitJoin(ts: seq<string>)
    requires AllTokens(ts)
    ensures Split(Join(ts, " ")) == ts
  {
    if |ts| == 1 {
      WordOfToken(ts[0], []);
      assert ts[0] + [] == ts[0];
      assert ts[0][|ts[0]|..] == [];
    } else if |ts| > 1 {
      SplitJoin(ts[1..]);
      SplitCons(ts[0], Join(ts[1..], " "));
      assert ts == [ts[0]] + ts[1..];
    }
  }
}
