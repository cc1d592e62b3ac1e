/** Splitting, joining and scanning text. */
module Texts {

  predicate IsSpace(c: char) {
    c == ' ' || '\t' <= c <= '\r' || '\U{1c}' <= c <= '\U{1f}'
  }

  predicate Spaces(s: string) {
    forall c <- s :: IsSpace(c)
  }

  predicate Solid(s: string) {
    forall c <- s :: !IsSpace(c)
  }

  /** The whitespace `s` starts with, and the rest. */
  function TakeSpaces(s: string): (r: (string, string))
    ensures |r.0| + |r.1| == |s|
    ensures r.1 != "" ==> !IsSpace(r.1[0])
  {
    if s == "" || !IsSpace(s[0]) then ("", s)
    else
      var r := TakeSpaces(s[1..]);
      ([s[0]] + r.0, r.1)
  }

  /** The word `s` starts with, and the rest. */
  function TakeWord(s: string): (r: (string, string))
    ensures |r.0| + |r.1| == |s|
    ensures r.1 != "" ==> IsSpace(r.1[0])
  {
    if s == "" || IsSpace(s[0]) then ("", s)
    else
      var r := TakeWord(s[1..]);
      ([s[0]] + r.0, r.1)
  }

  /** `s` without the whitespace it ends with, and that whitespace. */
  function TakeTail(s: string): (r: (string, string))
    ensures |r.0| + |r.1| == |s|
    ensures r.0 != "" ==> !IsSpace(r.0[|r.0| - 1])
  {
    if s == "" || !IsSpace(s[|s| - 1]) then (s, "")
    else
      var r := TakeTail(s[..|s| - 1]);
      (r.0, r.1 + [s[|s| - 1]])
  }

  lemma {:induction false} TakeSpacesSplits(s: string)
    ensures var r := TakeSpaces(s); r.0 + r.1 == s && Spaces(r.0)
    decreases |s|
  {
    if s != "" && IsSpace(s[0]) {
      TakeSpacesSplits(s[1..]);
    }
  }

  lemma {:induction false} TakeWordSplits(s: string)
    ensures var r := TakeWord(s); r.0 + r.1 == s && Solid(r.0)
    decreases |s|
  {
    if s != "" && !IsSpace(s[0]) {
      TakeWordSplits(s[1..]);
    }
  }

  lemma {:induction false} TakeTailSplits(s: string)
    ensures var r := TakeTail(s); r.0 + r.1 == s && Spaces(r.1)
    ensures s != "" && !IsSpace(s[0]) ==> TakeTail(s).0 != "" && TakeTail(s).0[0] == s[0]
    decreases |s|
  {
    if s != "" && IsSpace(s[|s| - 1]) {
      TakeTailSplits(s[..|s| - 1]);
    }
  }

  lemma {:induction false} TakeSpacesOf(gap: string, rest: string)
    requires Spaces(gap) && (rest != "" ==> !IsSpace(rest[0]))
    ensures TakeSpaces(gap + rest) == (gap, rest)
    decreases |gap|
  {
    if gap == "" {
      assert gap + rest == rest;
    } else {
      TakeSpacesOf(gap[1..], rest);
      assert (gap + rest)[1..] == gap[1..] + rest;
      assert gap == [gap[0]] + gap[1..];
    }
  }

  lemma {:induction false} TakeWordOf(word: string, rest: string)
    requires Solid(word) && (rest != "" ==> IsSpace(rest[0]))
    ensures TakeWord(word + rest) == (word, rest)
    decreases |word|
  {
    if word == "" {
      assert word + rest == rest;
    } else {
      TakeWordOf(word[1..], rest);
      assert (word + rest)[1..] == word[1..] + rest;
      assert word == [word[0]] + word[1..];
    }
  }

  lemma {:induction false} TakeTailOf(text: string, tail: string)
    requires Spaces(tail) && (text != "" ==> !IsSpace(text[|text| - 1]))
    ensures TakeTail(text + tail) == (text, tail)
    decreases |tail|
  {
    if tail == "" {
      assert text + tail == text;
    } else {
      var n := |tail| - 1;
      TakeTailOf(text, tail[..n]);
      assert (text + tail)[..|text + tail| - 1] == text + tail[..n];
      assert tail == tail[..n] + [tail[n]];
    }
  }

  /** `s.strip()`. */
  function Strip(s: string): string {
    TakeTail(TakeSpaces(s).1).0
  }

  lemma StripSplits(s: string)
    ensures Spaces(TakeSpaces(s).0) && Spaces(TakeTail(TakeSpaces(s).1).1)
    ensures s == TakeSpaces(s).0 + (Strip(s) + TakeTail(TakeSpaces(s).1).1)
    ensures Strip(s) != "" ==> !IsSpace(Strip(s)[0]) && !IsSpace(Strip(s)[|Strip(s)| - 1])
  {
    TakeSpacesSplits(s);
    TakeTailSplits(TakeSpaces(s).1);
  }

  lemma StripOf(lead: string, text: string, tail: string)
    requires Spaces(lead) && Spaces(tail)
    requires text != "" && !IsSpace(text[0]) && !IsSpace(text[|text| - 1])
    ensures Strip(lead + (text + tail)) == text
  {
    TakeSpacesOf(lead, text + tail);
    TakeTailOf(text, tail);
  }

  // --- one-character separators --------------------------------------------------------------

  function Join(pieces: seq<string>, sep: char): string {
    if pieces == [] then "" else if |pieces| == 1 then pieces[0] else pieces[0] + [sep] + Join(pieces[1..], sep)
  }

  /** `s.split(sep)`: never empty. */
  function Split(s: string, sep: char): (pieces: seq<string>)
    ensures pieces != [] && forall p <- pieces :: sep !in p
    ensures Join(pieces, sep) == s
  {
    if s == "" then [""]
    else if s[0] == sep then [""] + Split(s[1..], sep)
    else
      var rest := Split(s[1..], sep);
      var pieces := [[s[0]] + rest[0]] + rest[1..];
      assert Join(pieces, sep) == [s[0]] + Join(rest, sep) by {
        assert pieces[1..] == rest[1..];
      }
      pieces
  }

  lemma {:induction false} SplitOfJoin(pieces: seq<string>, sep: char)
    requires pieces != [] && forall p <- pieces :: sep !in p
    ensures Split(Join(pieces, sep), sep) == pieces
    decreases |pieces|
  {
    if |pieces| == 1 {
      SplitWord(pieces[0], sep);
    } else {
      SplitOfJoin(pieces[1..], sep);
      SplitCons(pieces[0], Join(pieces[1..], sep), sep);
      assert pieces[0] + [sep] + Join(pieces[1..], sep) == pieces[0] + ([sep] + Join(pieces[1..], sep));
    }
  }

  lemma {:induction false} SplitWord(word: string, sep: char)
    requires sep !in word
    ensures Split(word, sep) == [word]
    decreases |word|
  {
    if word != "" {
      SplitWord(word[1..], sep);
      assert word == [word[0]] + word[1..];
    }
  }

  lemma {:induction false} SplitCons(word: string, rest: string, sep: char)
    requires sep !in word
    ensures Split(word + ([sep] + rest), sep) == [word] + Split(rest, sep)
    decreases |word|
  {
    var s := word + ([sep] + rest);
    if word == "" {
      assert s[1..] == rest;
    } else {
      assert s[1..] == word[1..] + ([sep] + rest);
      SplitCons(word[1..], rest, sep);
      assert word == [word[0]] + word[1..];
    }
  }

  // --- the `||` separator ----------------------------------------------------------------------

  function JoinBars(texts: seq<string>): string {
    if texts == [] then "" else if |texts| == 1 then texts[0] else texts[0] + "||" + JoinBars(texts[1..])
  }

  /** `s.split("||")`. */
  function SplitBars(s: string): (texts: seq<string>)
    ensures texts != [] && JoinBars(texts) == s
  {
    if s == "" then [""]
    else if "||" <= s then
      var rest := SplitBars(s[2..]);
      assert s == "||" + s[2..] && ([""] + rest)[1..] == rest;
      [""] + rest
    else
      var rest := SplitBars(s[1..]);
      var texts := [[s[0]] + rest[0]] + rest[1..];
      assert texts[1..] == rest[1..];
      texts
  }

  lemma {:induction false} SplitBarsOfJoin(texts: seq<string>)
    requires texts != [] && forall t <- texts :: '|' !in t
    ensures SplitBars(JoinBars(texts)) == texts
    decreases |texts|
  {
    if |texts| == 1 {
      NoBars(texts[0]);
    } else {
      SplitBarsOfJoin(texts[1..]);
      BarsCons(texts[0], JoinBars(texts[1..]));
      assert texts[0] + "||" + JoinBars(texts[1..]) == texts[0] + ("||" + JoinBars(texts[1..]));
    }
  }

  lemma {:induction false} NoBars(text: string)
    requires '|' !in text
    ensures SplitBars(text) == [text]
    decreases |text|
  {
    if text != "" {
      NoBars(text[1..]);
      assert text == [text[0]] + text[1..];
    }
  }

  lemma {:induction false} BarsCons(text: string, rest: string)
    requires '|' !in text
    ensures SplitBars(text + ("||" + rest)) == [text] + SplitBars(rest)
    decreases |text|
  {
    var s := text + ("||" + rest);
    if text == "" {
      assert s[2..] == rest;
    } else {
      assert s[0] == text[0] && s[1..] == text[1..] + ("||" + rest);
      BarsCons(text[1..], rest);
      assert text == [text[0]] + text[1..];
    }
  }

  /** A joined text starts as its first part does, and ends as its last. */
  lemma {:induction false} JoinBarsEnds(texts: seq<string>)
    requires texts != []
    ensures var s := JoinBars(texts);
      && (texts[0] != "" ==> s != "" && s[0] == texts[0][0])
      && var last := texts[|texts| - 1];
      && (last != "" ==> s != "" && s[|s| - 1] == last[|last| - 1])
    decreases |texts|
  {
    if |texts| > 1 {
      JoinBarsEnds(texts[1..]);
      assert texts[1..][|texts| - 2] == texts[|texts| - 1];
    }
  }
}
