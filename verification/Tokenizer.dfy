/**
 A string tokenizer with a cursor: `next` skips delimiters and returns the run of other characters that
 follows, and `split` collects them to the end of the buffer.
 */
module Tokenizer {

  /** Space, tab, vertical tab, newline, carriage return and form feed. */
  const DEFAULT_DELIMITER := " \t\U{0B}\n\r\U{0C}"

  predicate AllIn(s: string, ds: set<char>, from: nat, to: nat)
    requires from <= to <= |s|
  {
    forall p | from <= p < to :: s[p] in ds
  }

  predicate NoneIn(s: string, ds: set<char>, from: nat, to: nat)
    requires from <= to <= |s|
  {
    forall p | from <= p < to :: s[p] !in ds
  }

  /** The first place from `from` on that holds no delimiter. */
  function TokenStart(s: string, ds: set<char>, from: nat): (n: nat)
    requires from <= |s|
    ensures from <= n <= |s| && AllIn(s, ds, from, n) && (n < |s| ==> s[n] !in ds)
    decreases |s| - from
  {
    if from == |s| || s[from] !in ds then from else TokenStart(s, ds, from + 1)
  }

  /** The first place from `from` on that holds a delimiter. */
  function TokenEnd(s: string, ds: set<char>, from: nat): (n: nat)
    requires from <= |s|
    ensures from <= n <= |s| && NoneIn(s, ds, from, n) && (n < |s| ==> s[n] in ds)
    decreases |s| - from
  {
    if from == |s| || s[from] in ds then from else TokenEnd(s, ds, from + 1)
  }

  datatype Span = Span(start: nat, end: nat)

  /** Where the tokens from `from` on lie. */
  function Spans(s: string, ds: set<char>, from: nat): (spans: seq<Span>)
    requires from <= |s|
    ensures forall i | 0 <= i < |spans| :: spans[i].start <= spans[i].end <= |s|
    decreases |s| - from
  {
    var start := TokenStart(s, ds, from);
    if start == |s| then []
    else
      var end := TokenEnd(s, ds, start);
      [Span(start, end)] + Spans(s, ds, end)
  }

  function Slices(s: string, spans: seq<Span>): (texts: seq<string>)
    requires forall i | 0 <= i < |spans| :: spans[i].start <= spans[i].end <= |s|
    ensures |texts| == |spans|
  {
    seq(|spans|, i requires 0 <= i < |spans| => s[spans[i].start..spans[i].end])
  }

  /** The tokens of the text from `from` on, in order. */
  function Tokens(s: string, ds: set<char>, from: nat): (tokens: seq<string>)
    requires from <= |s|
  {
    Slices(s, Spans(s, ds, from))
  }

  lemma NoTokens(s: string, ds: set<char>, from: nat)
    requires from <= |s| && AllIn(s, ds, from, |s|)
    ensures Tokens(s, ds, from) == [] && Spans(s, ds, from) == []
  {
    assert TokenStart(s, ds, from) == |s|;
  }

  lemma FirstToken(s: string, ds: set<char>, from: nat, start: nat, end: nat)
    requires from <= start < end <= |s|
    requires AllIn(s, ds, from, start) && NoneIn(s, ds, start, end) && (end < |s| ==> s[end] in ds)
    ensures Spans(s, ds, from) == [Span(start, end)] + Spans(s, ds, end)
    ensures Tokens(s, ds, from) == [s[start..end]] + Tokens(s, ds, end)
  {
    var k := TokenStart(s, ds, from);
    assert k == start by {
      assert s[start] !in ds;
    }
    var n := TokenEnd(s, ds, start);
    assert n == end;
    var rest := Spans(s, ds, end);
    assert Slices(s, [Span(start, end)] + rest) == [s[start..end]] + Slices(s, rest);
  }

  // ---------- the tokens are the maximal delimiter-free runs ----------

  /** A run of non-delimiters in the text from `from` on that cannot be extended to either side. */
  predicate MaximalRun(s: string, ds: set<char>, from: nat, span: Span) {
    && from <= span.start < span.end <= |s|
    && NoneIn(s, ds, span.start, span.end)
    && (span.start == from || s[span.start - 1] in ds)
    && (span.end == |s| || s[span.end] in ds)
  }

  /** All of them, each once, from left to right. */
  ghost predicate MaximalRuns(s: string, ds: set<char>, from: nat, spans: seq<Span>) {
    && (forall i | 0 <= i < |spans| :: MaximalRun(s, ds, from, spans[i]))
    && (forall i, j | 0 <= i < j < |spans| :: spans[i].end < spans[j].start)
    && (forall p | from <= p < |s| && s[p] !in ds :: Covered(spans, p))
  }

  ghost predicate Covered(spans: seq<Span>, p: nat) {
    exists i | 0 <= i < |spans| :: spans[i].start <= p < spans[i].end
  }

  lemma {:induction false} SpansAreMaximalRuns(s: string, ds: set<char>, from: nat)
    requires from <= |s|
    ensures MaximalRuns(s, ds, from, Spans(s, ds, from))
    decreases |s| - from
  {
    var start := TokenStart(s, ds, from);
    if start < |s| {
      var end := TokenEnd(s, ds, start);
      SpansAreMaximalRuns(s, ds, end);
      MoreMaximalRuns(s, ds, from, Span(start, end), Spans(s, ds, end));
    }
  }

  lemma MoreMaximalRuns(s: string, ds: set<char>, from: nat, first: Span, rest: seq<Span>)
    requires MaximalRun(s, ds, from, first) && MaximalRuns(s, ds, first.end, rest)
    requires AllIn(s, ds, from, first.start)
    ensures MaximalRuns(s, ds, from, [first] + rest)
  {
    var spans := [first] + rest;
    forall i | 1 <= i < |spans| ensures first.end < spans[i].start && MaximalRun(s, ds, from, spans[i]) {
      var span := spans[i];
      assert span == rest[i - 1] && MaximalRun(s, ds, first.end, span);
      assert s[span.start] !in ds;
    }
    forall i, j | 0 <= i < j < |spans| ensures spans[i].end < spans[j].start {
      if i > 0 {
        assert spans[i] == rest[i - 1] && spans[j] == rest[j - 1];
      }
    }
    forall p | from <= p < |s| && s[p] !in ds ensures Covered(spans, p) {
      if p < first.end {
        assert spans[0].start <= p < spans[0].end;
      } else {
        assert Covered(rest, p);
        var i :| 0 <= i < |rest| && rest[i].start <= p < rest[i].end;
        assert spans[i + 1] == rest[i];
      }
    }
  }

  /** A text has only one list of maximal runs. */
  lemma {:induction false} MaximalRunsAreUnique(s: string, ds: set<char>, from: nat, spans: seq<Span>)
    requires from <= |s| && MaximalRuns(s, ds, from, spans)
    ensures spans == Spans(s, ds, from)
    decreases |s| - from
  {
    var start := TokenStart(s, ds, from);
    if start == |s| {
      FirstRunStart(s, ds, from, spans);
    } else {
      FirstOfMaximalRuns(s, ds, from, spans, start, TokenEnd(s, ds, start));
      RestOfMaximalRuns(s, ds, from, spans);
      MaximalRunsAreUnique(s, ds, spans[0].end, spans[1..]);
    }
  }

  lemma FirstRunStart(s: string, ds: set<char>, from: nat, spans: seq<Span>)
    requires MaximalRuns(s, ds, from, spans)
    ensures spans == [] || (from <= spans[0].start < |s| && s[spans[0].start] !in ds)
  {
    assert spans == [] || MaximalRun(s, ds, from, spans[0]);
  }

  lemma FirstOfMaximalRuns(s: string, ds: set<char>, from: nat, spans: seq<Span>, start: nat, end: nat)
    requires from <= start < end <= |s| && MaximalRuns(s, ds, from, spans)
    requires AllIn(s, ds, from, start) && NoneIn(s, ds, start, end) && (end < |s| ==> s[end] in ds)
    ensures spans != [] && spans[0] == Span(start, end)
  {
    assert Covered(spans, start);
    var m :| 0 <= m < |spans| && spans[m].start <= start < spans[m].end;
    var first := spans[0];
    assert MaximalRun(s, ds, from, first) && MaximalRun(s, ds, from, spans[m]);
    assert s[first.start] !in ds;
    assert m == 0;
  }

  lemma RestOfMaximalRuns(s: string, ds: set<char>, from: nat, spans: seq<Span>)
    requires MaximalRuns(s, ds, from, spans) && spans != []
    ensures MaximalRuns(s, ds, spans[0].end, spans[1..])
  {
    var end, rest := spans[0].end, spans[1..];
    assert MaximalRun(s, ds, from, spans[0]);
    forall i | 0 <= i < |rest| ensures MaximalRun(s, ds, end, rest[i]) {
      assert MaximalRun(s, ds, from, spans[i + 1]) && rest[i] == spans[i + 1];
    }
    forall p | end <= p < |s| && s[p] !in ds ensures Covered(rest, p) {
      assert Covered(spans, p);
      var i :| 0 <= i < |spans| && spans[i].start <= p < spans[i].end;
      assert rest[i - 1] == spans[i];
    }
  }

  /** The specification of the tokenizer: its tokens are exactly the maximal delimiter-free runs, in order. */
  lemma TokensAreTheMaximalRuns(s: string, ds: set<char>, from: nat, spans: seq<Span>)
    requires from <= |s|
    ensures MaximalRuns(s, ds, from, spans) <==> spans == Spans(s, ds, from)
    ensures MaximalRuns(s, ds, from, spans) ==> Tokens(s, ds, from) == Slices(s, spans)
  {
    SpansAreMaximalRuns(s, ds, from);
    if MaximalRuns(s, ds, from, spans) {
      MaximalRunsAreUnique(s, ds, from, spans);
    }
  }

  // ---------- splitting undoes joining ----------

  /** A token and the delimiters after it. */
  datatype Part = Part(token: string, after: string)

  function Texts(parts: seq<Part>): (tokens: seq<string>)
    ensures |tokens| == |parts|
  {
    seq(|parts|, i requires 0 <= i < |parts| => parts[i].token)
  }

  function Joined(parts: seq<Part>): string {
    if parts == [] then "" else parts[0].token + (parts[0].after + Joined(parts[1..]))
  }

  predicate IsDelimiters(s: string, ds: set<char>) {
    AllIn(s, ds, 0, |s|)
  }

  predicate IsToken(s: string, ds: set<char>) {
    s != "" && NoneIn(s, ds, 0, |s|)
  }

  /** Non-empty tokens without delimiters, and delimiters between any two of them. */
  predicate Separated(parts: seq<Part>, ds: set<char>) {
    forall i | 0 <= i < |parts| ::
      IsToken(parts[i].token, ds) && IsDelimiters(parts[i].after, ds) && (i < |parts| - 1 ==> parts[i].after != "")
  }

  /** The pieces lie one after the other in the text, from `from` to its end. */
  predicate Laid(s: string, from: nat, lead: string, parts: seq<Part>)
    decreases |parts|
  {
    var start := from + |lead|;
    && start <= |s| && s[from..start] == lead
    && if parts == [] then start == |s|
       else
         var end := start + |parts[0].token|;
         end <= |s| && s[start..end] == parts[0].token && Laid(s, end, parts[0].after, parts[1..])
  }

  lemma {:induction false} JoinIsLaid(s: string, from: nat, lead: string, parts: seq<Part>)
    requires from <= |s| && s[from..] == lead + Joined(parts)
    ensures Laid(s, from, lead, parts)
    decreases |parts|
  {
    if parts == [] {
      assert lead + Joined(parts) == lead + ("" + "");
      Places(s, from, lead, "", "");
    } else {
      var token, tail := parts[0].token, parts[0].after + Joined(parts[1..]);
      assert Joined(parts) == token + tail;
      Places(s, from, lead, token, tail);
      JoinIsLaid(s, from + |lead| + |token|, parts[0].after, parts[1..]);
    }
  }

  /** Where the pieces of a text lie. */
  lemma Places(s: string, from: nat, lead: string, token: string, tail: string)
    requires from <= |s| && s[from..] == lead + (token + tail)
    ensures from + |lead| + |token| + |tail| == |s|
    ensures s[from..from + |lead|] == lead && s[from + |lead|..from + |lead| + |token|] == token
    ensures s[from + |lead| + |token|..] == tail
  {
    var rest, start := s[from..], from + |lead|;
    assert rest[|lead|..] == token + tail && s[start..] == rest[|lead|..];
    assert (token + tail)[..|token|] == token && (token + tail)[|token|..] == tail;
    assert s[start..start + |token|] == s[start..][..|token|];
    assert s[start + |token|..] == s[start..][|token|..];
    assert s[from..start] == rest[..|lead|] && rest[..|lead|] == lead;
  }

  lemma PlacesHold(s: string, from: nat, lead: string, token: string, ds: set<char>)
    requires from + |lead| + |token| <= |s| && IsDelimiters(lead, ds) && NoneIn(token, ds, 0, |token|)
    requires s[from..from + |lead|] == lead && s[from + |lead|..from + |lead| + |token|] == token
    ensures AllIn(s, ds, from, from + |lead|) && NoneIn(s, ds, from + |lead|, from + |lead| + |token|)
  {
    var start := from + |lead|;
    assert forall p | from <= p < start :: s[p] == s[from..start][p - from];
    assert forall p | start <= p < start + |token| :: s[p] == s[start..start + |token|][p - start];
  }

  lemma RestIsSeparated(parts: seq<Part>, ds: set<char>)
    requires parts != [] && Separated(parts, ds)
    ensures Separated(parts[1..], ds)
  {
    assert forall i | 0 <= i < |parts| - 1 :: parts[1..][i] == parts[i + 1];
  }

  /** Behind the first token comes a delimiter, if anything. */
  lemma DelimiterFollows(s: string, from: nat, lead: string, parts: seq<Part>, ds: set<char>)
    requires Laid(s, from, lead, parts) && parts != [] && Separated(parts, ds)
    ensures var end := from + |lead| + |parts[0].token|; end <= |s| && (end < |s| ==> s[end] in ds)
  {
    var end, after := from + |lead| + |parts[0].token|, parts[0].after;
    assert s[end..end + |after|] == after;
    assert after != "" ==> s[end] == after[0];
  }

  lemma TextsStep(parts: seq<Part>)
    requires parts != []
    ensures Texts(parts) == [parts[0].token] + Texts(parts[1..])
  {
  }

  lemma {:induction false} TokensOfLaid(s: string, from: nat, lead: string, parts: seq<Part>, ds: set<char>)
    requires Laid(s, from, lead, parts) && IsDelimiters(lead, ds) && Separated(parts, ds)
    ensures Tokens(s, ds, from) == Texts(parts)
    decreases |parts|
  {
    var start := from + |lead|;
    if parts == [] {
      PlacesHold(s, from, lead, "", ds);
      NoTokens(s, ds, from);
    } else {
      var token := parts[0].token;
      DelimiterFollows(s, from, lead, parts, ds);
      PlacesHold(s, from, lead, token, ds);
      FirstToken(s, ds, from, start, start + |token|);
      RestIsSeparated(parts, ds);
      TokensOfLaid(s, start + |token|, parts[0].after, parts[1..], ds);
      TextsStep(parts);
    }
  }

  /** Whatever delimiters lead, separate and follow the tokens, splitting gives the tokens back. */
  lemma SplitUndoesJoin(lead: string, parts: seq<Part>, ds: set<char>)
    requires IsDelimiters(lead, ds) && Separated(parts, ds)
    ensures Tokens(lead + Joined(parts), ds, 0) == Texts(parts)
  {
    var s := lead + Joined(parts);
    assert s[0..] == s;
    JoinIsLaid(s, 0, lead, parts);
    TokensOfLaid(s, 0, lead, parts, ds);
  }

  /** And every text is such a join of its tokens, so no token is empty and none holds a delimiter. */
  lemma {:induction false} EveryTextIsAJoin(s: string, ds: set<char>, from: nat) returns (lead: string, parts: seq<Part>)
    requires from <= |s|
    ensures IsDelimiters(lead, ds) && Separated(parts, ds)
    ensures s[from..] == lead + Joined(parts) && Texts(parts) == Tokens(s, ds, from)
    decreases |s| - from
  {
    var start := TokenStart(s, ds, from);
    lead, parts := s[from..start], [];
    if start < |s| {
      var end := TokenEnd(s, ds, start);
      FirstToken(s, ds, from, start, end);
      var after, rest := EveryTextIsAJoin(s, ds, end);
      var first := Part(s[start..end], after);
      parts := [first] + rest;
      MorePart(first, rest, s[end..], ds);
      Resplit(s, from, start, end);
    }
  }

  lemma Resplit(s: string, from: nat, start: nat, end: nat)
    requires from <= start <= end <= |s|
    ensures s[from..] == s[from..start] + (s[start..end] + s[end..])
  {
  }

  lemma MorePart(first: Part, rest: seq<Part>, tail: string, ds: set<char>)
    requires IsToken(first.token, ds) && IsDelimiters(first.after, ds) && Separated(rest, ds)
    requires tail == first.after + Joined(rest) && (tail == "" || tail[0] in ds)
    ensures Separated([first] + rest, ds) && Joined([first] + rest) == first.token + tail
    ensures Texts([first] + rest) == [first.token] + Texts(rest)
  {
    var parts := [first] + rest;
    assert parts[1..] == rest;
    assert forall i | 1 <= i < |parts| :: parts[i] == rest[i - 1];
    if rest != [] {
      assert Joined(rest)[0] == rest[0].token[0];
      assert first.after == "" ==> tail == Joined(rest);
    }
  }

  lemma TokensAreClean(s: string, ds: set<char>, from: nat)
    requires from <= |s|
    ensures forall i | 0 <= i < |Tokens(s, ds, from)| ::
              Tokens(s, ds, from)[i] != "" && forall c :: c in Tokens(s, ds, from)[i] ==> c !in ds
  {
    var lead, parts := EveryTextIsAJoin(s, ds, from);
    forall i | 0 <= i < |parts|
      ensures parts[i].token != "" && forall c :: c in parts[i].token ==> c !in ds
    {
      assert IsToken(parts[i].token, ds);
    }
    assert forall i | 0 <= i < |parts| :: Texts(parts)[i] == parts[i].token;
  }

  function Flattened(tokens: seq<string>): string {
    if tokens == [] then "" else tokens[0] + Flattened(tokens[1..])
  }

  /** The text from `from` on with its delimiters removed. */
  function Stripped(s: string, ds: set<char>, from: nat): string
    requires from <= |s|
    decreases |s| - from
  {
    if from == |s| then ""
    else (if s[from] in ds then "" else [s[from]]) + Stripped(s, ds, from + 1)
  }

  lemma {:induction false} StripDelimiters(s: string, ds: set<char>, from: nat, to: nat)
    requires from <= to <= |s| && AllIn(s, ds, from, to)
    ensures Stripped(s, ds, from) == Stripped(s, ds, to)
    decreases |s| - from
  {
    if from < to {
      StripDelimiters(s, ds, from + 1, to);
    }
  }

  lemma {:induction false} StripToken(s: string, ds: set<char>, from: nat, to: nat)
    requires from <= to <= |s| && NoneIn(s, ds, from, to)
    ensures Stripped(s, ds, from) == s[from..to] + Stripped(s, ds, to)
    decreases |s| - from
  {
    if from < to {
      StripToken(s, ds, from + 1, to);
      SliceStep(s, from, to, Stripped(s, ds, to));
    }
  }

  lemma SliceStep(s: string, from: nat, to: nat, rest: string)
    requires from < to <= |s|
    ensures s[from..to] + rest == [s[from]] + (s[from + 1..to] + rest)
  {
    assert s[from..to] == [s[from]] + s[from + 1..to];
  }

  /** Splitting loses nothing but delimiters. */
  lemma {:induction false} TokensKeepTheRest(s: string, ds: set<char>, from: nat)
    requires from <= |s|
    ensures Flattened(Tokens(s, ds, from)) == Stripped(s, ds, from)
    decreases |s| - from
  {
    var start := TokenStart(s, ds, from);
    StripDelimiters(s, ds, from, start);
    if start < |s| {
      var end := TokenEnd(s, ds, start);
      StripToken(s, ds, start, end);
      FirstToken(s, ds, from, start, end);
      TokensKeepTheRest(s, ds, end);
      assert Tokens(s, ds, from)[1..] == Tokens(s, ds, end);
    }
  }

  // ---------- the tokenizer ----------

  class Tokenizer {
    var buffer: string
    var token: string
    var delimiter: string
    var currPos: nat

    predicate Valid() reads this {
      currPos <= |buffer|
    }

    ghost function Delimiters(): (ds: set<char>)
      reads this`delimiter
    {
      set c | c in delimiter
    }

    constructor ()
      ensures Valid() && buffer == "" && token == "" && delimiter == " \t\U{0B}\n\r\U{0C}" && currPos == 0
    {
      buffer, token, delimiter, currPos := "", "", DEFAULT_DELIMITER, 0;
    }

    constructor Of(str: string, delimiter: string)
      ensures Valid() && buffer == str && token == "" && this.delimiter == delimiter && currPos == 0
    {
      buffer, token, this.delimiter, currPos := str, "", delimiter, 0;
    }

    method Set(str: string, delimiter: string)
      modifies this`buffer, this`delimiter, this`currPos
      ensures Valid() && buffer == str && currPos == 0 && this.delimiter == delimiter
    {
      buffer := str;
      this.delimiter := delimiter;
      currPos := 0;
    }

    method SetString(str: string)
      modifies this`buffer, this`currPos
      ensures Valid() && buffer == str && currPos == 0
    {
      buffer := str;
      currPos := 0;
    }

    /** A new delimiter also moves the cursor back to the beginning. */
    method SetDelimiter(delimiter: string)
      modifies this`delimiter, this`currPos
      ensures Valid() && currPos == 0 && this.delimiter == delimiter
    {
      this.delimiter := delimiter;
      currPos := 0;
    }

    predicate IsDelimiter(c: char)
      reads this`delimiter
      ensures IsDelimiter(c) <==> c in delimiter
    {
      c in delimiter
    }

    method SkipDelimiter()
      requires Valid()
      modifies this`currPos
      ensures Valid() && currPos == TokenStart(buffer, set c | c in delimiter, old(currPos))
    {
      while currPos != |buffer| && IsDelimiter(buffer[currPos])
        invariant old(currPos) <= currPos <= |buffer|
        invariant TokenStart(buffer, Delimiters(), currPos) == TokenStart(buffer, Delimiters(), old(currPos))
      {
        currPos := currPos + 1;
      }
    }

    /**
     The next token, or "" if there is none; what remains after the cursor are the other tokens.  On an empty
     buffer the field `token` keeps its old value.
     */
    method Next() returns (t: string)
      requires Valid()
      modifies this`currPos, this`token
      ensures Valid() && currPos >= old(currPos) + |t|
      ensures token == if buffer == "" then old(token) else t
      ensures t == "" ==> currPos == |buffer|
      ensures var ds := set c | c in delimiter; currPos == TokenEnd(buffer, ds, TokenStart(buffer, ds, old(currPos)))
      ensures t == "" ==> Tokens(buffer, set c | c in delimiter, old(currPos)) == []
      ensures var ds := set c | c in delimiter;
              t != "" ==> Tokens(buffer, ds, old(currPos)) == [t] + Tokens(buffer, ds, currPos)
    {
      if |buffer| <= 0 {
        return "";
      }
      token := "";
      SkipDelimiter();
      ghost var start := currPos;
      while currPos != |buffer| && !IsDelimiter(buffer[currPos])
        invariant start <= currPos <= |buffer|
        invariant token == buffer[start..currPos]
        invariant TokenEnd(buffer, Delimiters(), currPos) == TokenEnd(buffer, Delimiters(), start)
      {
        token := token + [buffer[currPos]];
        currPos := currPos + 1;
      }
      if start < |buffer| {
        FirstToken(buffer, Delimiters(), old(currPos), start, currPos);
      }
      t := token;
    }

    /** All tokens from the cursor on; the cursor ends at the end of the buffer. */
    method Split() returns (tokens: seq<string>)
      requires Valid()
      modifies this`currPos, this`token
      ensures Valid() && currPos == |buffer|
      ensures tokens == Tokens(buffer, set c | c in delimiter, old(currPos))
      ensures forall i | 0 <= i < |tokens| :: tokens[i] != "" && forall c :: c in tokens[i] ==> c !in delimiter
    {
      ghost var all, ds := Tokens(buffer, Delimiters(), currPos), Delimiters();
      tokens := [];
      var t := Next();
      ghost var rest := Tokens(buffer, ds, currPos);
      while t != ""
        invariant Valid() && (t == "" ==> currPos == |buffer|)
        invariant rest == Tokens(buffer, ds, currPos)
        invariant t == "" ==> all == tokens
        invariant t != "" ==> all == (tokens + [t]) + rest
        decreases |buffer| - currPos, |t|
      {
        tokens := tokens + [t];
        t := Next();
        rest := Tokens(buffer, ds, currPos);
        Regroup(tokens, t, rest);
      }
      TokensAreClean(buffer, ds, old(currPos));
    }
  }

  lemma Regroup(tokens: seq<string>, t: string, rest: seq<string>)
    ensures tokens + ([t] + rest) == (tokens + [t]) + rest
  {
  }
}
