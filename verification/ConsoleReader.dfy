/** The console tokenizer of `console_reader`. */
module ConsoleReader {

  const SPACE: char := ' '

  class Command {
    var name: string
    var params: seq<string>

    constructor ()
      ensures name == "" && params == []
    {
      name, params := "", [];
    }

    /** The first word becomes the name, every later one a parameter. */
    method Add(word: string)
      requires word != "" && (name == "" ==> params == [])
      modifies this
      ensures Words(name, params) == old(Words(name, params)) + [word] && name != ""
      ensures old(name) != "" ==> name == old(name)
    {
      if name == "" {
        name := word;
      } else {
        params := params + [word];
      }
    }
  }

  /** The words of a command that has one. */
  function Words(name: string, params: seq<string>): seq<string> {
    if name == "" then params else [name] + params
  }

  // ------------------------------------------------------------------- the spec

  predicate SpaceFree(s: string) { forall i :: 0 <= i < |s| ==> s[i] != SPACE }

  /** First index from `pos` on that is no space, or the length. */
  function SkipSpaces(s: string, pos: nat): (p: nat)
    requires pos <= |s|
    ensures pos <= p <= |s| && (forall i :: pos <= i < p ==> s[i] == SPACE) && (p < |s| ==> s[p] != SPACE)
    decreases |s| - pos
  {
    if pos < |s| && s[pos] == SPACE then SkipSpaces(s, pos + 1) else pos
  }

  /** First index from `pos` on that is a space, or the length. */
  function NextSpace(s: string, pos: nat): (p: nat)
    requires pos <= |s|
    ensures pos <= p <= |s| && (forall i :: pos <= i < p ==> s[i] != SPACE) && (p < |s| ==> s[p] == SPACE)
    decreases |s| - pos
  {
    if pos < |s| && s[pos] != SPACE then NextSpace(s, pos + 1) else pos
  }

  lemma {:induction false} SkipIs(s: string, pos: nat, p: nat)
    requires pos <= p <= |s| && (forall i :: pos <= i < p ==> s[i] == SPACE) && (p < |s| ==> s[p] != SPACE)
    ensures SkipSpaces(s, pos) == p
    decreases p - pos
  {
    if pos < p { SkipIs(s, pos + 1, p); }
  }

  lemma {:induction false} NextIs(s: string, pos: nat, p: nat)
    requires pos <= p <= |s| && (forall i :: pos <= i < p ==> s[i] != SPACE) && (p < |s| ==> s[p] == SPACE)
    ensures NextSpace(s, pos) == p
    decreases p - pos
  {
    if pos < p { NextIs(s, pos + 1, p); }
  }

  datatype Span = Span(from: nat, to: nat)

  /** The spans of the words of `s` from `pos` on. */
  function Spans(s: string, pos: nat): seq<Span>
    requires pos <= |s|
    decreases |s| - pos
  {
    var from := SkipSpaces(s, pos);
    if from == |s| then [] else [Span(from, NextSpace(s, from))] + Spans(s, NextSpace(s, from))
  }

  function Tokens(s: string, pos: nat): seq<string>
    requires pos <= |s|
    decreases |s| - pos
  {
    var from := SkipSpaces(s, pos);
    if from == |s| then [] else [s[from..NextSpace(s, from)]] + Tokens(s, NextSpace(s, from))
  }

  /** A maximal run of characters other than the space. */
  predicate MaximalRun(s: string, r: Span) {
    && r.from < r.to <= |s| && (forall i :: r.from <= i < r.to ==> s[i] != SPACE)
    && (r.from > 0 ==> s[r.from - 1] == SPACE)
    && (r.to < |s| ==> s[r.to] == SPACE)
  }

  /** The spans are all the maximal runs at or after `pos`, in order. */
  ghost predicate AllRuns(s: string, pos: nat, spans: seq<Span>) {
    && (forall r :: r in spans <==> MaximalRun(s, r) && pos <= r.from)
    && (forall i, j :: 0 <= i < j < |spans| ==> spans[i].to < spans[j].from)
  }

  lemma {:induction false} SpansAreAllRuns(s: string, pos: nat)
    requires pos <= |s| && (0 < pos < |s| ==> s[pos] == SPACE || s[pos - 1] == SPACE)
    ensures AllRuns(s, pos, Spans(s, pos))
    decreases |s| - pos
  {
    var from := SkipSpaces(s, pos);
    if from < |s| {
      var to := NextSpace(s, from);
      SpansAreAllRuns(s, to);
      var rest := Spans(s, to);
      assert Spans(s, pos) == [Span(from, to)] + rest;
      assert MaximalRun(s, Span(from, to)) by { assert from > 0 ==> s[from - 1] == SPACE; }
      forall r | MaximalRun(s, r) && pos <= r.from
        ensures r == Span(from, to) || r in rest
      {
        RunStartsHereOrLater(s, pos, r);
      }
    } else {
      forall r | MaximalRun(s, r) ensures r.from < pos {
        assert s[r.from] != SPACE;
      }
    }
  }

  lemma RunStartsHereOrLater(s: string, pos: nat, r: Span)
    requires pos <= r.from && MaximalRun(s, r) && SkipSpaces(s, pos) < |s|
    ensures var from := SkipSpaces(s, pos); r == Span(from, NextSpace(s, from)) || NextSpace(s, from) <= r.from
  {
    var from := SkipSpaces(s, pos);
    if r.from == from {
      NextIs(s, from, r.to);
    } else {
      assert r.from > from by { assert s[r.from] != SPACE; }
      assert s[r.from - 1] == SPACE;
    }
  }

  lemma {:induction false} TokensAreSpans(s: string, pos: nat)
    requires pos <= |s|
    ensures |Tokens(s, pos)| == |Spans(s, pos)|
    ensures forall i :: 0 <= i < |Spans(s, pos)| ==>
      Spans(s, pos)[i].from < Spans(s, pos)[i].to <= |s|
      && Tokens(s, pos)[i] == s[Spans(s, pos)[i].from..Spans(s, pos)[i].to]
    decreases |s| - pos
  {
    var from := SkipSpaces(s, pos);
    if from < |s| {
      TokensAreSpans(s, NextSpace(s, from));
    }
  }

  // ---------------------------------------------------------------------- parse

  /** The lambda `get_begin_pos`. */
  method GetBeginPos(s: string, start: nat) returns (pos: nat)
    requires start <= |s|
    ensures pos == SkipSpaces(s, start)
  {
    pos := start;
    while pos < |s|
      invariant start <= pos <= |s| && SkipSpaces(s, pos) == SkipSpaces(s, start)
    {
      if s[pos] != SPACE {
        break;
      }
      pos := pos + 1;
    }
  }

  /** `std::string::find`, with the length in place of `npos`. */
  method Find(s: string, start: nat) returns (pos: nat)
    requires start <= |s|
    ensures pos == NextSpace(s, start)
  {
    pos := start;
    while pos < |s| && s[pos] != SPACE
      invariant start <= pos <= |s| && NextSpace(s, pos) == NextSpace(s, start)
    {
      pos := pos + 1;
    }
  }

  lemma MoveOne(before: seq<string>, word: string, rest: seq<string>, tokens: seq<string>)
    requires tokens == [word] + rest
    ensures (before + [word]) + rest == before + tokens
  {
  }

  /** `parse`: the words of the text are added to the command, the first one as its name if it has none. */
  method Parse(cmd: Command, text: string)
    requires cmd.name == "" ==> cmd.params == []
    modifies cmd
    ensures Words(cmd.name, cmd.params) == old(Words(cmd.name, cmd.params)) + Tokens(text, 0)
    ensures old(cmd.name) != "" ==> cmd.name == old(cmd.name)
    ensures cmd.name == "" ==> cmd.params == []
  {
    var nextPos := 0;
    while true
      invariant nextPos <= |text| && (cmd.name == "" ==> cmd.params == [])
      invariant old(cmd.name) != "" ==> cmd.name == old(cmd.name)
      invariant Words(cmd.name, cmd.params) + Tokens(text, nextPos)
                == old(Words(cmd.name, cmd.params)) + Tokens(text, 0)
      decreases |text| - nextPos
    {
      var pos := GetBeginPos(text, nextPos);
      if pos >= |text| {
        break;
      }
      ghost var tokens := Tokens(text, nextPos);
      ghost var before := Words(cmd.name, cmd.params);
      nextPos := Find(text, pos);
      cmd.Add(text[pos..nextPos]);
      MoveOne(before, text[pos..nextPos], Tokens(text, nextPos), tokens);
    }
  }

  // ----------------------------------------------------------------- round trip

  predicate AllSpaces(s: string) { forall i :: 0 <= i < |s| ==> s[i] == SPACE }

  /** The words printed one after the other, each after its gap of spaces, then the trailing spaces. */
  function Print(words: seq<string>, gaps: seq<string>, trailing: string): string
    requires |gaps| == |words|
  {
    if words == [] then trailing else gaps[0] + words[0] + Print(words[1..], gaps[1..], trailing)
  }

  /** Non-empty space-free words; gaps of spaces, empty only before the first word. */
  ghost predicate Printable(words: seq<string>, gaps: seq<string>, trailing: string) {
    && |gaps| == |words| && AllSpaces(trailing)
    && (forall i :: 0 <= i < |words| ==> words[i] != "" && SpaceFree(words[i]) && AllSpaces(gaps[i]))
    && (forall i :: 0 < i < |words| ==> gaps[i] != "")
  }

  lemma TokensUnfold(s: string, pos: nat, from: nat, to: nat)
    requires pos <= |s| && SkipSpaces(s, pos) == from < |s| && NextSpace(s, from) == to
    ensures Tokens(s, pos) == [s[from..to]] + Tokens(s, to)
  {
  }

  /** `u` ends in `t`, which starts at index `d`. */
  ghost predicate EndsIn(u: string, d: nat, t: string) {
    |u| == d + |t| && forall i :: 0 <= i < |t| ==> u[d + i] == t[i]
  }

  lemma {:induction false} SkipInSuffix(u: string, d: nat, t: string, pos: nat)
    requires EndsIn(u, d, t) && pos <= |t|
    ensures SkipSpaces(u, d + pos) == d + SkipSpaces(t, pos)
    decreases |t| - pos
  {
    if pos < |t| && t[pos] == SPACE { SkipInSuffix(u, d, t, pos + 1); }
  }

  lemma {:induction false} NextInSuffix(u: string, d: nat, t: string, pos: nat)
    requires EndsIn(u, d, t) && pos <= |t|
    ensures NextSpace(u, d + pos) == d + NextSpace(t, pos)
    decreases |t| - pos
  {
    if pos < |t| && t[pos] != SPACE { NextInSuffix(u, d, t, pos + 1); }
  }

  lemma NoTokens(s: string, pos: nat)
    requires pos <= |s| && SkipSpaces(s, pos) == |s|
    ensures Tokens(s, pos) == []
  {
  }

  /** Two texts that agree on the next word and on the tokens after it agree on all of them. */
  lemma SameTokens(u: string, v: nat, t: string, pos: nat, a: Span, b: Span)
    requires v <= |u| && SkipSpaces(u, v) == a.from < |u| && NextSpace(u, a.from) == a.to
    requires pos <= |t| && SkipSpaces(t, pos) == b.from < |t| && NextSpace(t, b.from) == b.to
    requires u[a.from..a.to] == t[b.from..b.to] && Tokens(u, a.to) == Tokens(t, b.to)
    ensures Tokens(u, v) == Tokens(t, pos)
  {
    TokensUnfold(u, v, a.from, a.to);
    TokensUnfold(t, pos, b.from, b.to);
  }

  /** A suffix has the same next word. */
  lemma WordInSuffix(u: string, d: nat, t: string, pos: nat) returns (inU: Span, inT: Span)
    requires EndsIn(u, d, t) && pos <= |t| && SkipSpaces(t, pos) < |t|
    ensures pos <= inT.from < inT.to <= |t| && inU == Span(d + inT.from, d + inT.to)
    ensures SkipSpaces(t, pos) == inT.from && NextSpace(t, inT.from) == inT.to
    ensures SkipSpaces(u, d + pos) == inU.from < |u| && NextSpace(u, inU.from) == inU.to
    ensures u[inU.from..inU.to] == t[inT.from..inT.to]
  {
    SkipInSuffix(u, d, t, pos);
    var from := SkipSpaces(t, pos);
    NextInSuffix(u, d, t, from);
    var to := NextSpace(t, from);
    inU, inT := Span(d + from, d + to), Span(from, to);
  }

  /** The tokens of a suffix are the tokens from that position. */
  lemma {:induction false} TokensInSuffix(u: string, d: nat, t: string, pos: nat, v: nat)
    requires EndsIn(u, d, t) && pos <= |t| && v == d + pos
    ensures Tokens(u, v) == Tokens(t, pos)
    decreases |t| - pos
  {
    if SkipSpaces(t, pos) == |t| {
      SkipInSuffix(u, d, t, pos);
      NoTokens(u, v);
      NoTokens(t, pos);
    } else {
      var inU, inT := WordInSuffix(u, d, t, pos);
      TokensInSuffix(u, d, t, inT.to, inU.to);
      SameTokens(u, v, t, pos, inU, inT);
    }
  }

  lemma SkipGap(gap: string, word: string, rest: string)
    requires AllSpaces(gap) && word != "" && SpaceFree(word)
    ensures SkipSpaces(gap + word + rest, 0) == |gap|
  {
    var s := gap + word + rest;
    assert s[|gap|] == word[0];
    SkipIs(s, 0, |gap|);
  }

  lemma NextAfterWord(gap: string, word: string, rest: string)
    requires SpaceFree(word) && (rest == "" || rest[0] == SPACE)
    ensures NextSpace(gap + word + rest, |gap|) == |gap| + |word|
  {
    NextIs(gap + word + rest, |gap|, |gap| + |word|);
  }

  /** What is printed after a word starts with a space, or is empty. */
  lemma PrintStartsWithSpace(words: seq<string>, gaps: seq<string>, trailing: string)
    requires Printable(words, gaps, trailing) && (words != [] ==> gaps[0] != "")
    ensures var rest := Print(words, gaps, trailing); rest == "" || rest[0] == SPACE
  {
    if words != [] {
      assert AllSpaces(gaps[0]);
      assert Print(words, gaps, trailing)[0] == gaps[0][0];
    }
  }

  lemma WordInPlace(gap: string, word: string, rest: string)
    ensures (gap + word + rest)[|gap|..|gap| + |word|] == word
    ensures EndsIn(gap + word + rest, |gap| + |word|, rest)
  {
  }

  lemma FirstToken(gap: string, word: string, rest: string)
    requires AllSpaces(gap) && word != "" && SpaceFree(word) && (rest == "" || rest[0] == SPACE)
    ensures Tokens(gap + word + rest, 0) == [word] + Tokens(rest, 0)
  {
    WordInPlace(gap, word, rest);
    SkipGap(gap, word, rest);
    NextAfterWord(gap, word, rest);
    FirstTokenIs(gap + word + rest, |gap|, |gap| + |word|, word, rest);
  }

  lemma FirstTokenIs(s: string, from: nat, to: nat, word: string, rest: string)
    requires from < to <= |s| && SkipSpaces(s, 0) == from && NextSpace(s, from) == to && s[from..to] == word
    requires EndsIn(s, to, rest)
    ensures Tokens(s, 0) == [word] + Tokens(rest, 0)
  {
    TokensUnfold(s, 0, from, to);
    TokensInSuffix(s, to, rest, 0, to);
  }

  /** What is printed parses back to the same words. */
  lemma {:induction false} TokensOfPrint(words: seq<string>, gaps: seq<string>, trailing: string)
    requires Printable(words, gaps, trailing)
    ensures Tokens(Print(words, gaps, trailing), 0) == words
    decreases |words|
  {
    if words == [] {
      SkipIs(trailing, 0, |trailing|);
    } else {
      PrintStartsWithSpace(words[1..], gaps[1..], trailing);
      FirstToken(gaps[0], words[0], Print(words[1..], gaps[1..], trailing));
      TokensOfPrint(words[1..], gaps[1..], trailing);
    }
  }

  /** A line with at least one word comes back as a name and parameters. */
  method ParsePrinted(words: seq<string>, gaps: seq<string>, trailing: string) returns (cmd: Command)
    requires Printable(words, gaps, trailing) && words != []
    ensures cmd.name == words[0] && cmd.params == words[1..]
  {
    cmd := new Command();
    Parse(cmd, Print(words, gaps, trailing));
    TokensOfPrint(words, gaps, trailing);
    assert Words(cmd.name, cmd.params) == words;
  }
}
