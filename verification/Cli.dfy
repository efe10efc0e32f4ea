/** The server's command line: tokenizer with its growing array, command lookup, and the text that the
    broadcast command puts together again (server/src/server_cli.c, server/src/server.c). */
module Cli {
  import opened Text

  const SRV_BUFSIZE: nat := 64
  const DELIM: char := ' '

  const COMMANDS: seq<string> :=
    ["!exit", "!quit", "!stop", "!shutdown", "!history", "!clear", "!list", "!ban", "!mute", "!kick", "!kickall",
     "!broadcast", "!help"]

  /** The first position from `i` on that is not a delimiter. */
  function Start(s: string, i: nat): (a: nat)
    requires i <= |s|
    ensures i <= a <= |s| && (a < |s| ==> s[a] != DELIM)
    ensures forall k | i <= k < a :: s[k] == DELIM
    decreases |s| - i
  {
    if i < |s| && s[i] == DELIM then Start(s, i + 1) else i
  }

  /** The first position from `i` on that is a delimiter. */
  function Stop(s: string, i: nat): (b: nat)
    requires i <= |s|
    ensures i <= b <= |s| && (b < |s| ==> s[b] == DELIM)
    ensures forall k | i <= k < b :: s[k] != DELIM
    decreases |s| - i
  {
    if i < |s| && s[i] != DELIM then Stop(s, i + 1) else i
  }

  datatype Span = Span(from: nat, to: nat)

  /** Where the tokens that repeated `strtok(_, " ")` finds from `i` on begin and end. */
  function Spans(s: string, i: nat): (spans: seq<Span>)
    requires i <= |s|
    ensures forall k | 0 <= k < |spans| :: i <= spans[k].from < spans[k].to <= |s|
    decreases |s| - i
  {
    var a := Start(s, i);
    if a == |s| then [] else [Span(a, Stop(s, a))] + Spans(s, Stop(s, a))
  }

  function Cut(s: string, spans: seq<Span>): (tokens: seq<string>)
    requires forall k | 0 <= k < |spans| :: spans[k].from < spans[k].to <= |s|
    ensures |tokens| == |spans|
    ensures forall k | 0 <= k < |spans| :: tokens[k] == s[spans[k].from..spans[k].to]
  {
    if spans == [] then [] else [s[spans[0].from..spans[0].to]] + Cut(s, spans[1..])
  }

  /** What repeated `strtok(_, " ")` returns from `i` on. */
  function TokensFrom(s: string, i: nat): seq<string>
    requires i <= |s|
  {
    Cut(s, Spans(s, i))
  }

  function Tokens(s: string): seq<string> {
    TokensFrom(s, 0)
  }

  predicate Run(s: string, i: nat, r: Span) {
    && i <= r.from < r.to <= |s|
    && (forall k | r.from <= k < r.to :: s[k] != ' ')
    && (r.from == i || s[r.from - 1] == ' ')
    && (r.to == |s| || s[r.to] == ' ')
  }

  /** From `i` on, `spans` are the maximal runs of non-spaces, all of them, from left to right. */
  ghost predicate MaximalRuns(s: string, i: nat, spans: seq<Span>) {
    && (forall k | 0 <= k < |spans| :: Run(s, i, spans[k]))
    && (forall k, l | 0 <= k < l < |spans| :: spans[k].to < spans[l].from)
    && (forall p | i <= p < |s| && s[p] != ' ' :: exists k | 0 <= k < |spans| :: spans[k].from <= p < spans[k].to)
  }

  lemma RunAfter(s: string, i: nat, r: Span, x: Span)
    requires Run(s, i, r) && Run(s, r.to, x)
    ensures Run(s, i, x) && r.to < x.from
  {
    assert s[x.from] != DELIM;
  }

  lemma ConsCovers(s: string, i: nat, r: Span, rest: seq<Span>, p: nat)
    requires i <= |s| && Run(s, i, r) && MaximalRuns(s, r.to, rest)
    requires forall k | i <= k < r.from :: s[k] == DELIM
    requires i <= p < |s| && s[p] != DELIM
    ensures var spans := [r] + rest; exists k | 0 <= k < |spans| :: spans[k].from <= p < spans[k].to
  {
    var spans := [r] + rest;
    if p < r.to {
      assert spans[0] == r && r.from <= p;
    } else {
      var k :| 0 <= k < |rest| && rest[k].from <= p < rest[k].to;
      assert spans[k + 1] == rest[k];
    }
  }

  lemma ConsRuns(s: string, i: nat, r: Span, rest: seq<Span>)
    requires i <= |s| && Run(s, i, r) && MaximalRuns(s, r.to, rest)
    requires forall k | i <= k < r.from :: s[k] == DELIM
    ensures MaximalRuns(s, i, [r] + rest)
  {
    var spans := [r] + rest;
    forall k | 0 <= k < |rest| ensures Run(s, i, rest[k]) && r.to < rest[k].from {
      RunAfter(s, i, r, rest[k]);
    }
    forall k, l | 0 <= k < l < |spans| ensures spans[k].to < spans[l].from {
      assert spans[l] == rest[l - 1] && (k > 0 ==> spans[k] == rest[k - 1]);
    }
    forall p | i <= p < |s| && s[p] != DELIM ensures exists k | 0 <= k < |spans| :: spans[k].from <= p < spans[k].to {
      ConsCovers(s, i, r, rest, p);
    }
  }

  lemma UnconsRuns(s: string, i: nat, spans: seq<Span>)
    requires i <= |s| && MaximalRuns(s, i, spans) && spans != []
    ensures MaximalRuns(s, spans[0].to, spans[1..])
  {
    var r, rest := spans[0], spans[1..];
    forall k | 0 <= k < |rest| ensures Run(s, r.to, rest[k]) && rest[k] == spans[k + 1] {
      assert Run(s, i, spans[k + 1]);
    }
    assert Run(s, i, r);
    forall p | r.to <= p < |s| && s[p] != DELIM ensures exists k | 0 <= k < |rest| :: rest[k].from <= p < rest[k].to {
      var k :| 0 <= k < |spans| && spans[k].from <= p < spans[k].to;
      assert rest[k - 1] == spans[k];
    }
  }

  lemma {:induction false} SpansAreRuns(s: string, i: nat)
    requires i <= |s|
    ensures MaximalRuns(s, i, Spans(s, i))
    decreases |s| - i
  {
    var a := Start(s, i);
    if a < |s| {
      SpansAreRuns(s, Stop(s, a));
      ConsRuns(s, i, Span(a, Stop(s, a)), Spans(s, Stop(s, a)));
    }
  }

  lemma {:induction false} RunsAreSpans(s: string, i: nat, spans: seq<Span>)
    requires i <= |s| && MaximalRuns(s, i, spans)
    ensures spans == Spans(s, i)
    decreases |spans|
  {
    if spans == [] {
      var a := Start(s, i);
    } else {
      FirstRun(s, i, spans);
      UnconsRuns(s, i, spans);
      RunsAreSpans(s, spans[0].to, spans[1..]);
    }
  }

  lemma {:induction false} FirstRun(s: string, i: nat, spans: seq<Span>)
    requires i <= |s| && MaximalRuns(s, i, spans) && spans != []
    ensures spans[0].from == Start(s, i) < |s| && spans[0].to == Stop(s, Start(s, i))
  {
    var a := Start(s, i);
    assert Run(s, i, spans[0]);
    assert s[spans[0].from] != DELIM;
    var k :| 0 <= k < |spans| && spans[k].from <= a < spans[k].to;
    assert Run(s, i, spans[k]);
    StopInRun(s, a, spans[0].to);
  }

  lemma {:induction false} StopInRun(s: string, i: nat, b: nat)
    requires i <= b <= |s| && (forall k | i <= k < b :: s[k] != DELIM) && (b == |s| || s[b] == DELIM)
    ensures Stop(s, i) == b
    decreases b - i
  {
    if i < b {
      StopInRun(s, i + 1, b);
    }
  }

  /** The tokens of a line are exactly its maximal runs of non-spaces, left to right. */
  lemma {:induction false} TokensExact(s: string, spans: seq<Span>)
    ensures MaximalRuns(s, 0, spans) <==> spans == Spans(s, 0)
    ensures MaximalRuns(s, 0, spans) ==> Tokens(s) == Cut(s, spans)
  {
    SpansAreRuns(s, 0);
    if MaximalRuns(s, 0, spans) {
      RunsAreSpans(s, 0, spans);
    }
  }

  predicate Word(s: string) {
    s != "" && ' ' !in s
  }

  lemma TokensAreWords(s: string)
    ensures forall k | 0 <= k < |Tokens(s)| :: Word(Tokens(s)[k])
  {
    SpansAreRuns(s, 0);
    var spans := Spans(s, 0);
    forall k | 0 <= k < |Tokens(s)| ensures Word(Tokens(s)[k]) {
      assert Run(s, 0, spans[k]);
    }
  }

  /** One strtok call, from position `pos`; `next` is where the following call goes on. */
  method Strtok(line: string, pos: nat) returns (token: Option<string>, next: nat)
    requires pos <= |line|
    ensures pos <= next <= |line|
    ensures TokensFrom(line, pos) == if token == None then [] else [token.value] + TokensFrom(line, next)
    ensures token.Some? ==> pos < next
  {
    var start := pos;
    while start < |line| && line[start] == DELIM
      invariant pos <= start <= |line|
      invariant Start(line, pos) == Start(line, start)
    {
      start := start + 1;
    }
    if start == |line| {
      return None, start;
    }
    next := start;
    while next < |line| && line[next] != DELIM
      invariant start <= next <= |line|
      invariant Stop(line, start) == Stop(line, next)
    {
      next := next + 1;
    }
    token := Some(line[start..next]);
    assert Spans(line, pos)[1..] == Spans(line, next);
  }

  /** The array holds `words`, and has the size that growing by 64 whenever it is full leads to. */
  ghost predicate Stored(tokens: array<Option<string>>, count: nat, words: seq<string>)
    reads tokens
  {
    && |words| == count < tokens.Length == Capacity(count)
    && forall k | 0 <= k < count :: tokens[k] == Some(words[k])
  }

  function Capacity(count: nat): nat {
    64 * (count / 64 + 1)
  }

  lemma Room(n: nat)
    ensures n < Capacity(n)
    ensures Capacity(n + 1) == if n + 1 >= Capacity(n) then Capacity(n) + SRV_BUFSIZE else Capacity(n)
  {
    assert n == SRV_BUFSIZE * (n / SRV_BUFSIZE) + n % SRV_BUFSIZE;
    assert (n + 1) / SRV_BUFSIZE == if n % SRV_BUFSIZE + 1 == SRV_BUFSIZE then n / SRV_BUFSIZE + 1 else n / SRV_BUFSIZE;
  }

  /** The token array of srv_exec_line, ended by None, which stands for NULL. */
  method Tokenize(line: string) returns (tokens: array<Option<string>>, count: nat)
    ensures fresh(tokens) && Stored(tokens, count, Tokens(line)) && tokens[count] == None
  {
    tokens := new Option<string>[SRV_BUFSIZE];
    count := 0;
    var token, pos := Strtok(line, 0);
    ghost var done: seq<string> := [];
    while token.Some?
      invariant pos <= |line| && fresh(tokens) && Stored(tokens, count, done)
      invariant Ahead(line, done, token, pos) == Tokens(line)
      decreases |line| - pos, token.Some?
    {
      tokens := StoreToken(tokens, count, token, done);
      done := done + [token.value];
      count := count + 1;
      token, pos := Strtok(line, pos);
    }
    tokens[count] := None;
  }

  /** The stored tokens, the one in hand, and those that strtok finds from `next` on. */
  ghost function Ahead(line: string, done: seq<string>, token: Option<string>, next: nat): seq<string>
    requires next <= |line|
  {
    if token == None then done else done + [token.value] + TokensFrom(line, next)
  }

  /** One turn of the token loop: store, count, and grow when full. */
  method StoreToken(tokens: array<Option<string>>, i: nat, token: Option<string>, ghost done: seq<string>)
    returns (grown: array<Option<string>>)
    requires Stored(tokens, i, done) && token.Some?
    modifies tokens
    ensures (grown == tokens || fresh(grown)) && Stored(grown, i + 1, done + [token.value])
  {
    Room(i);
    Room(i + 1);
    tokens[i] := token;
    grown := tokens;
    if i + 1 >= tokens.Length {
      grown := Realloc(tokens, tokens.Length + SRV_BUFSIZE);
      assert forall k | 0 <= k < tokens.Length :: grown[..tokens.Length][k] == tokens[..][k];
    }
  }

  method Realloc(former: array<Option<string>>, size: nat) returns (grown: array<Option<string>>)
    requires former.Length <= size
    ensures fresh(grown) && grown.Length == size && grown[..former.Length] == former[..]
  {
    grown := new Option<string>[size];
    forall i | 0 <= i < former.Length {
      grown[i] := former[i];
    }
  }

  datatype Outcome = Nothing | Execute(command: nat, args: seq<string>) | NotFound(name: string)

  /** srv_exec_line up to the call of the command: the first table entry with that name gets the other tokens. */
  method ExecLine(line: string) returns (outcome: Outcome)
    ensures outcome == Nothing <==> Tokens(line) == []
    ensures outcome.Execute? ==>
              && outcome.command < |COMMANDS| && COMMANDS[outcome.command] == Tokens(line)[0]
              && (forall j | 0 <= j < outcome.command :: COMMANDS[j] != Tokens(line)[0])
              && outcome.args == Tokens(line)[1..] && Tokens(Joined(outcome.args)) == outcome.args
    ensures outcome.NotFound? ==> outcome.name == Tokens(line)[0] && Tokens(line)[0] !in COMMANDS
  {
    var tokens, count := Tokenize(line);
    if tokens[0] == None {
      return Nothing;
    }
    var command := tokens[0].value;
    for i := 0 to |COMMANDS|
      invariant forall j | 0 <= j < i :: COMMANDS[j] != command
    {
      if command == COMMANDS[i] {
        var args := seq(count - 1,
            k requires 0 <= k < count - 1 reads tokens requires tokens[k + 1].Some? => tokens[k + 1].value);
        assert args == Tokens(line)[1..];
        ArgumentsRejoin(line);
        return Execute(i, args);
      }
    }
    return NotFound(command);
  }

  function Piece(word: string, delimited: bool): string {
    word + if delimited then [DELIM] else ""
  }

  /** The words with one space between them. */
  function Joined(words: seq<string>): string {
    if words == [] then "" else Piece(words[0], |words| > 1) + Joined(words[1..])
  }

  function TotalLength(words: seq<string>): nat {
    if words == [] then 0 else |words[0]| + 1 + TotalLength(words[1..])
  }

  lemma {:induction false} JoinedFits(words: seq<string>)
    ensures |Joined(words)| <= TotalLength(words)
  {
    if words != [] {
      JoinedFits(words[1..]);
    }
  }

  lemma {:induction false} JoinedSplitsFrom(s: string, p: nat, words: seq<string>)
    requires p <= |s| && s[p..] == Joined(words)
    requires forall i | 0 <= i < |words| :: Word(words[i])
    ensures TokensFrom(s, p) == words
    decreases |words|
  {
    if words == [] {
      NoToken(s);
    } else {
      var q := TakesFirst(s, p, words);
      JoinedSplitsFrom(s, q, words[1..]);
    }
  }

  lemma TakesFirst(s: string, p: nat, words: seq<string>) returns (q: nat)
    requires p <= |s| && s[p..] == Joined(words) && words != [] && Word(words[0])
    ensures p <= q <= |s| && s[q..] == Joined(words[1..])
    ensures TokensFrom(s, p) == [words[0]] + TokensFrom(s, q)
  {
    q := WordEnds(s, p, words);
    TokenAndDelim(s, p, q);
    q := if q < |s| then q + 1 else q;
  }

  /** Where the first of the joined words ends, and what follows it. */
  lemma WordEnds(s: string, p: nat, words: seq<string>) returns (q: nat)
    requires p <= |s| && s[p..] == Joined(words) && words != [] && Word(words[0])
    ensures p < q <= |s| && s[p..q] == words[0] && (forall k | p <= k < q :: s[k] != DELIM)
    ensures q == |s| || s[q] == DELIM
    ensures s[if q < |s| then q + 1 else q..] == Joined(words[1..])
  {
    JoinedBegins(s, p, words);
    q := p + |words[0]|;
    if |words| == 1 {
      assert words[1..] == [];
    }
  }

  lemma TokenAndDelim(s: string, p: nat, q: nat)
    requires p < q <= |s| && (forall k | p <= k < q :: s[k] != DELIM) && (q == |s| || s[q] == DELIM)
    ensures TokensFrom(s, p) == [s[p..q]] + TokensFrom(s, if q < |s| then q + 1 else q)
  {
    FirstToken(s, p, q);
    if q < |s| {
      SkipOne(s, q);
    }
  }

  lemma FirstToken(s: string, p: nat, q: nat)
    requires p < q <= |s| && (forall k | p <= k < q :: s[k] != DELIM) && (q == |s| || s[q] == DELIM)
    ensures TokensFrom(s, p) == [s[p..q]] + TokensFrom(s, q)
  {
    StopInRun(s, p, q);
    assert Spans(s, p) == [Span(p, q)] + Spans(s, q);
    assert Spans(s, p)[1..] == Spans(s, q);
  }

  lemma SkipOne(s: string, q: nat)
    requires q < |s| && s[q] == DELIM
    ensures TokensFrom(s, q) == TokensFrom(s, q + 1)
  {
    assert Start(s, q) == Start(s, q + 1);
    assert Spans(s, q) == Spans(s, q + 1);
  }

  lemma NoToken(s: string)
    ensures TokensFrom(s, |s|) == []
  {
    assert Start(s, |s|) == |s|;
  }

  lemma {:induction false} JoinedBegins(s: string, p: nat, words: seq<string>)
    requires p <= |s| && s[p..] == Joined(words) && words != [] && Word(words[0])
    ensures var q := p + |words[0]|;
            && q <= |s| && s[p..q] == words[0] && (forall k | p <= k < q :: s[k] != DELIM)
            && (if |words| > 1 then q < |s| && s[q] == DELIM && s[q + 1..] == Joined(words[1..]) else q == |s|)
  {
    var q := p + |words[0]|;
    assert s[p..][..|words[0]|] == words[0];
    forall k | p <= k < q ensures s[k] != DELIM {
      assert s[k] == words[0][k - p];
    }
    if |words| > 1 {
      assert s[p..][|words[0]|] == DELIM;
      assert s[p..][|words[0]| + 1..] == Joined(words[1..]);
    } else {
      assert words[1..] == [];
    }
  }

  /** The joined text splits into the same words again. */
  lemma {:induction false} JoinedSplits(words: seq<string>)
    requires forall i | 0 <= i < |words| :: Word(words[i])
    ensures Tokens(Joined(words)) == words
  {
    var s := Joined(words);
    assert s[0..] == s;
    JoinedSplitsFrom(s, 0, words);
  }

  /** What a command is given joins and splits into the same arguments, for every line. */
  lemma ArgumentsRejoin(line: string)
    requires Tokens(line) != []
    ensures Tokens(Joined(Tokens(line)[1..])) == Tokens(line)[1..]
  {
    TokensAreWords(line);
    JoinedSplits(Tokens(line)[1..]);
  }

  /** strcat: `len` is where the text in `buffer` ends. */
  method Strcat(buffer: array<char>, len: nat, s: string)
    requires len + |s| < buffer.Length && buffer[len] == NUL
    modifies buffer
    ensures buffer[..len + |s|] == old(buffer[..len]) + s && buffer[len + |s|] == NUL
  {
    forall i | 0 <= i < |s| {
      buffer[len + i] := s[i];
    }
    buffer[len + |s|] := NUL;
  }

  /** The text in the buffer, up to its NUL at `len`. */
  ghost predicate Holds(buffer: array<char>, len: nat, text: string)
    reads buffer
  {
    len < buffer.Length && buffer[len] == NUL && buffer[..len] == text
  }

  /** The text that srv_broadcast puts together from its NULL-terminated arguments: within the computed length,
      terminated, and splitting into the same arguments again. */
  method JoinArgs(args: array<Option<string>>, ghost words: seq<string>) returns (text: array<char>)
    requires |words| < args.Length && args[|words|] == None
    requires forall k | 0 <= k < |words| :: args[k] == Some(words[k])
    ensures fresh(text) && text.Length == 1 + TotalLength(words)
    ensures Holds(text, |Joined(words)|, Joined(words))
    ensures (forall i | 0 <= i < |words| :: Word(words[i])) ==> Tokens(text[..|Joined(words)|]) == words
  {
    var totalLength := ArgsLength(args, words);
    JoinedFits(words);
    text := new char[totalLength];
    text[0] := NUL;
    var len := 0;
    ghost var soFar := "";
    var i := 0;
    while args[i] != None
      invariant 0 <= i <= |words| && fresh(text) && text.Length == totalLength
      invariant Holds(text, len, soFar) && Completes(soFar, i, words)
      decreases |words| - i
    {
      JoinedNext(soFar, words, i);
      var delimited := args[i + 1] != None;
      len := AppendArg(text, len, soFar, args[i].value, delimited);
      soFar := soFar + Piece(words[i], delimited);
      i := i + 1;
    }
    assert words[i..] == [] && soFar == Joined(words);
    if forall i | 0 <= i < |words| :: Word(words[i]) {
      JoinedSplits(words);
    }
  }

  /** One turn of the second loop of srv_broadcast. */
  method AppendArg(text: array<char>, len: nat, ghost soFar: string, arg: string, delimited: bool) returns (end: nat)
    requires Holds(text, len, soFar) && len + |Piece(arg, delimited)| < text.Length
    modifies text
    ensures Holds(text, end, soFar + Piece(arg, delimited))
  {
    Strcat(text, len, arg);
    end := len + |arg|;
    if delimited {
      Strcat(text, end, [DELIM]);
      end := end + 1;
    }
  }

  /** The first loop of srv_broadcast. */
  method ArgsLength(args: array<Option<string>>, ghost words: seq<string>) returns (totalLength: nat)
    requires |words| < args.Length && args[|words|] == None
    requires forall k | 0 <= k < |words| :: args[k] == Some(words[k])
    ensures totalLength == 1 + TotalLength(words)
  {
    totalLength := 1;
    var i := 0;
    while args[i] != None
      invariant 0 <= i <= |words|
      invariant totalLength + TotalLength(words[i..]) == 1 + TotalLength(words)
      decreases |words| - i
    {
      assert words[i..][1..] == words[i + 1..];
      totalLength := totalLength + |args[i].value| + 1;
      i := i + 1;
    }
    assert words[i..] == [];
  }

  ghost predicate Completes(soFar: string, i: nat, words: seq<string>)
    requires i <= |words|
  {
    soFar + Joined(words[i..]) == Joined(words)
  }

  lemma JoinedNext(soFar: string, words: seq<string>, i: nat)
    requires i < |words| && Completes(soFar, i, words)
    ensures var now := soFar + Piece(words[i], i + 1 < |words|);
            Completes(now, i + 1, words) && |now| <= TotalLength(words)
  {
    JoinedFits(words);
    assert words[i..][1..] == words[i + 1..];
    assert Joined(words[i..]) == Piece(words[i], i + 1 < |words|) + Joined(words[i + 1..]);
  }
}
