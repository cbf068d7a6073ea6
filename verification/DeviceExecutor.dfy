/**
 The code that runs on the device worker thread: what is sent to a device, what the audit rendering says would be sent,
 and what is reported when it goes wrong.

 The device is a transport: each call sends some of its lines, and answers, refuses or breaks.
*/
module DeviceExecutor {
  import opened Basics

  datatype Reply = Answer(output: string) | Refused | Broke

  /** What the transport makes of one call: its reply, and how many lines went out when it is no answer. */
  datatype Fate = Fate(reply: Reply, lines: nat)

  /** One call as it went: `out` of its lines were put out. */
  datatype Sending = Sending(lines: seq<string>, reply: Reply, out: nat)

  datatype Confirmation = Confirmation(prompt: string -> bool, response: string)

  /** Vendor-wide rules: the check before a commit and what it must say, the commit, and the confirmation looked for in
      all outputs put together. */
  datatype VendorRules = VendorRules(check: Option<string>, checkPassed: string -> bool, commit: seq<string>,
                                     needsMarker: bool, committed: seq<string> -> bool)

  /** `config` holds the templates of the lines for one interface; without it `exec` is the template of the one line. */
  datatype Command = Command(config: Option<seq<string>>, exec: string, confirmation: Option<seq<Confirmation>>,
                             verifyManually: bool)

  datatype ErrorClass =
    | NotConnected | EnableFailed | ModeFailed | Placeholder | DeviceRejected | CheckFailed | CheckUnconfirmed
    | Unconfirmed | Crashed

  /** Which interfaces were configured, which one failed and which were not touched. */
  datatype Report = Report(applied: seq<string>, failed: string, notSent: seq<string>)

  datatype ExecutionResult = ExecutionResult(ok: bool, dispatched: bool, error: Option<ErrorClass>, report: Option<Report>)

  datatype Batch = Output(texts: seq<string>) | Failure(result: ExecutionResult)

  predicate HasPlaceholder(line: string) { '<' in line || '>' in line }

  // ---------------------------------------------------------------- rendering

  datatype Block = Block(name: string, lines: seq<string>)

  /** Arguments by name: of one interface in configuration mode, of the command otherwise. */
  type Arguments = map<string, string>

  /** The template with every `{name}` replaced by the argument of that name and `{{`, `}}` by one brace each. A name
      without an argument, and a brace that stands alone, is an error. */
  function Format(template: string, arguments: Arguments): Option<string> {
    if template == "" then Some("")
    else if |template| >= 2 && template[0] == template[1] && (template[0] == '{' || template[0] == '}') then
      Prepend([template[0]], Format(template[2..], arguments))
    else if template[0] == '}' then None
    else if template[0] == '{' then
      var end := Closing(template, 1);
      if end < |template| && template[1..end] in arguments then
        Prepend(arguments[template[1..end]], Format(template[end + 1..], arguments))
      else None
    else Prepend([template[0]], Format(template[1..], arguments))
  }

  /** The first closing brace from `i` on, or the end. */
  function Closing(template: string, i: nat): (end: nat)
    requires i <= |template|
    ensures i <= end <= |template|
    decreases |template| - i
  {
    if i == |template| || template[i] == '}' then i else Closing(template, i + 1)
  }

  function Prepend(text: string, rest: Option<string>): Option<string> {
    if rest.Some? then Some(text + rest.value) else None
  }

  /** A template without braces stands for itself. */
  lemma {:induction false} PlainTemplate(template: string, arguments: Arguments)
    requires '{' !in template && '}' !in template
    ensures Format(template, arguments) == Some(template)
  {
    if template != "" {
      PlainTemplate(template[1..], arguments);
      assert template == [template[0]] + template[1..];
    }
  }

  lemma {:induction false} ClosingAt(template: string, i: nat, end: nat)
    requires i <= end < |template| && template[end] == '}' && forall k :: i <= k < end ==> template[k] != '}'
    ensures Closing(template, i) == end
    decreases end - i
  {
    if i < end {
      ClosingAt(template, i + 1, end);
    }
  }

  lemma {:induction false} NameFirst(name: string, after: string, arguments: Arguments)
    requires '{' !in name && '}' !in name && name in arguments
    ensures Format("{" + name + "}" + after, arguments) == Prepend(arguments[name], Format(after, arguments))
  {
    var template := "{" + name + "}" + after;
    ClosingAt(template, 1, |name| + 1);
    assert template[1..|name| + 1] == name && template[|name| + 2..] == after;
  }

  function Braced(before: string, name: string, after: string): string { before + "{" + name + "}" + after }

  lemma {:induction false} BracedTail(before: string, name: string, after: string)
    requires before != ""
    ensures Braced(before, name, after) == [before[0]] + Braced(before[1..], name, after)
  {
  }

  lemma {:induction false} PlainFirst(first: char, rest: string, arguments: Arguments)
    requires first != '{' && first != '}'
    ensures Format([first] + rest, arguments) == Prepend([first], Format(rest, arguments))
  {
    assert ([first] + rest)[1..] == rest;
  }

  lemma {:induction false} FilledTail(before: string, value: string, after: string)
    requires before != ""
    ensures [before[0]] + (before[1..] + value + after) == before + value + after
  {
  }

  /** A name in braces becomes its argument, and the text around it stays. */
  lemma {:induction false} NameIsFilled(before: string, name: string, after: string, arguments: Arguments)
    requires '{' !in before && '}' !in before && '{' !in name && '}' !in name && '{' !in after && '}' !in after
    requires name in arguments
    ensures Format(Braced(before, name, after), arguments) == Some(before + arguments[name] + after)
  {
    if before == "" {
      NameFirst(name, after, arguments);
      PlainTemplate(after, arguments);
      assert Braced(before, name, after) == "{" + name + "}" + after;
      assert before + arguments[name] + after == arguments[name] + after;
    } else {
      NameIsFilled(before[1..], name, after, arguments);
      BracedTail(before, name, after);
      PlainFirst(before[0], Braced(before[1..], name, after), arguments);
      FilledTail(before, arguments[name], after);
    }
  }

  /** A template as its author means it: plain characters, braces among them, and named fields. */
  datatype Piece = Character(c: char) | Field(name: string)

  /** How it is written: a brace is doubled, a field stands in braces. */
  function Written(pieces: seq<Piece>): string {
    if pieces == [] then ""
    else
      (match pieces[0]
       case Character(c) => if c == '{' || c == '}' then [c, c] else [c]
       case Field(name) => "{" + name + "}")
      + Written(pieces[1..])
  }

  /** What it comes to: every field is its argument; a field without one is an error. */
  function FilledIn(pieces: seq<Piece>, arguments: Arguments): Option<string> {
    if pieces == [] then Some("")
    else
      match pieces[0]
      case Character(c) => Prepend([c], FilledIn(pieces[1..], arguments))
      case Field(name) => if name in arguments then Prepend(arguments[name], FilledIn(pieces[1..], arguments)) else None
  }

  lemma {:induction false} DoubledFirst(c: char, after: string, arguments: Arguments)
    requires c == '{' || c == '}'
    ensures Format([c, c] + after, arguments) == Prepend([c], Format(after, arguments))
  {
    assert ([c, c] + after)[2..] == after;
  }

  lemma {:induction false} UnknownNameFirst(name: string, after: string, arguments: Arguments)
    requires '{' !in name && '}' !in name && name !in arguments
    ensures Format("{" + name + "}" + after, arguments) == None
  {
    var template := "{" + name + "}" + after;
    ClosingAt(template, 1, |name| + 1);
    assert template[1..|name| + 1] == name;
  }

  /** Filling a written template gives what its author means, for every template whose field names hold no brace. */
  lemma {:induction false} FormatFillsIn(pieces: seq<Piece>, arguments: Arguments)
    requires forall i :: 0 <= i < |pieces| && pieces[i].Field? ==> '{' !in pieces[i].name && '}' !in pieces[i].name
    ensures Format(Written(pieces), arguments) == FilledIn(pieces, arguments)
  {
    if pieces != [] {
      FormatFillsIn(pieces[1..], arguments);
      var after := Written(pieces[1..]);
      match pieces[0]
      case Character(c) =>
        if c == '{' || c == '}' {
          DoubledFirst(c, after, arguments);
        } else {
          PlainFirst(c, after, arguments);
        }
      case Field(name) =>
        if name in arguments {
          NameFirst(name, after, arguments);
        } else {
          UnknownNameFirst(name, after, arguments);
        }
    }
  }

  /** A closing brace that stands alone, and an opening one that nothing closes, are errors. */
  lemma {:induction false} LoneBraces(after: string, arguments: Arguments)
    ensures (after == "" || after[0] != '}') ==> Format("}" + after, arguments) == None
    ensures '}' !in after && (after == "" || after[0] != '{') ==> Format("{" + after, arguments) == None
  {
    assert ("}" + after)[0] == '}' && ("{" + after)[0] == '{';
    if '}' !in after {
      NeverClosed("{" + after, 1);
    }
  }

  lemma {:induction false} NeverClosed(template: string, i: nat)
    requires i <= |template| && forall k :: i <= k < |template| ==> template[k] != '}'
    ensures Closing(template, i) == |template|
    decreases |template| - i
  {
    if i < |template| {
      NeverClosed(template, i + 1);
    }
  }

  /** A line of an interface; its template can be filled. */
  function Filled(template: string, name: string): string {
    var line := Format(template, map["interface" := name]);
    if line.Some? then line.value else ""
  }

  predicate Fillable(templates: seq<string>, names: seq<string>) {
    forall i, k | 0 <= i < |templates| && 0 <= k < |names| :: Format(templates[i], map["interface" := names[k]]).Some?
  }

  /** The line of a command outside configuration mode: a template without a brace stands for itself. */
  function ExecLine(template: string, arguments: Arguments): Option<string> {
    if '{' !in template then Some(template) else Format(template, arguments)
  }

  /** The templates can be filled exactly when every line of every interface is its template with the name filled in. */
  lemma {:induction false} FillableExactly(templates: seq<string>, names: seq<string>)
    ensures Fillable(templates, names) <==>
            forall i, k | 0 <= i < |templates| && 0 <= k < |names| ::
              Format(templates[i], map["interface" := names[k]]) == Some(Filled(templates[i], names[k]))
  {
  }

  /** The line of a command is its template filled in; one without an opening brace stands as it is. */
  lemma {:induction false} ExecLineIs(template: string, arguments: Arguments)
    ensures '{' in template ==> ExecLine(template, arguments) == Format(template, arguments)
    ensures '{' !in template ==> ExecLine(template, arguments) == Some(template)
  {
  }

  /** The lines of one interface. */
  function BlockOf(templates: seq<string>, name: string): Block {
    Block(name, seq(|templates|, i requires 0 <= i < |templates| => Filled(templates[i], name)))
  }

  function Blocks(templates: seq<string>, names: seq<string>): (r: seq<Block>)
    ensures |r| == |names| && forall i :: 0 <= i < |names| ==> r[i] == BlockOf(templates, names[i])
  {
    seq(|names|, i requires 0 <= i < |names| => BlockOf(templates, names[i]))
  }

  /** All lines of the first `n` interfaces. */
  function LinesOf(blocks: seq<Block>, n: nat): seq<string>
    requires n <= |blocks|
  {
    if n == 0 then [] else LinesOf(blocks, n - 1) + blocks[n - 1].lines
  }

  function CheckLines(rules: VendorRules): seq<string> { if rules.check.Some? then [rules.check.value] else [] }

  /** What the audit snapshot says will be sent. */
  function Rendered(blocks: seq<Block>, rules: VendorRules): seq<string> {
    LinesOf(blocks, |blocks|) + CheckLines(rules) + rules.commit
  }

  lemma {:induction false} LinesCount(templates: seq<string>, names: seq<string>, n: nat)
    requires n <= |names|
    ensures |LinesOf(Blocks(templates, names), n)| == n * |templates|
  {
    if n > 0 {
      LinesCount(templates, names, n - 1);
      assert n * |templates| == (n - 1) * |templates| + |templates|;
    }
  }

  lemma {:induction false} Offset(k: nat, n: nat, i: nat, m: nat)
    requires k < n && i < m
    ensures k * m + i < n * m
  {
    if k < n - 1 {
      Offset(k, n - 1, i, m);
    }
    assert n * m == (n - 1) * m + m;
  }

  /** The rendering, line by line: interface after interface, each with its own name filled into every template. */
  lemma {:induction false} RenderedAt(templates: seq<string>, names: seq<string>, n: nat, k: nat, i: nat)
    requires k < n <= |names| && i < |templates|
    ensures 0 <= k * |templates| + i < |LinesOf(Blocks(templates, names), n)|
    ensures LinesOf(Blocks(templates, names), n)[k * |templates| + i] == Filled(templates[i], names[k])
  {
    var at, blocks := k * |templates| + i, Blocks(templates, names);
    LinesCount(templates, names, n);
    LinesCount(templates, names, n - 1);
    Offset(k, n, i, |templates|);
    if k < n - 1 {
      Offset(k, n - 1, i, |templates|);
      RenderedAt(templates, names, n - 1, k, i);
    } else {
      assert at - |LinesOf(blocks, n - 1)| == i;
    }
  }

  lemma {:induction false} LinesPrefix(blocks: seq<Block>, k: nat, n: nat)
    requires k <= n <= |blocks|
    ensures LinesOf(blocks, k) <= LinesOf(blocks, n)
    decreases n - k
  {
    if k < n {
      LinesPrefix(blocks, k, n - 1);
    }
  }

  lemma {:induction false} PrefixOfPart<T>(a: seq<T>, b: seq<T>, n: nat)
    requires n <= |b|
    ensures a + b[..n] <= a + b
  {
  }

  lemma {:induction false} PrefixTransitive<T>(a: seq<T>, b: seq<T>, c: seq<T>)
    requires a <= b && b <= c
    ensures a <= c
  {
  }

  /** Part of block `k` after all earlier blocks is the start of what is rendered. */
  lemma {:induction false} PartIsPrefix(blocks: seq<Block>, rules: VendorRules, k: nat, n: nat)
    requires k < |blocks| && n <= |blocks[k].lines|
    ensures LinesOf(blocks, k) + blocks[k].lines[..n] <= Rendered(blocks, rules)
  {
    var all := LinesOf(blocks, |blocks|);
    PrefixOfPart(LinesOf(blocks, k), blocks[k].lines, n);
    LinesPrefix(blocks, k + 1, |blocks|);
    PrefixTransitive(LinesOf(blocks, k) + blocks[k].lines[..n], LinesOf(blocks, k + 1), all);
    RenderedStarts(blocks, rules);
    PrefixTransitive(LinesOf(blocks, k) + blocks[k].lines[..n], all, Rendered(blocks, rules));
  }

  lemma {:induction false} RenderedStarts(blocks: seq<Block>, rules: VendorRules)
    ensures LinesOf(blocks, |blocks|) <= Rendered(blocks, rules)
    ensures LinesOf(blocks, |blocks|) + CheckLines(rules) <= Rendered(blocks, rules)
  {
  }

  // ---------------------------------------------------------------- the connection

  function Out(call: Sending): seq<string> {
    if call.out <= |call.lines| then call.lines[..call.out] else call.lines
  }

  class Connection {
    const fate: nat -> Fate
    var calls: nat
    /** The command lines that went out, and the calls that sent them. Login, mode changes and logout are no lines. */
    ghost var sent: seq<string>
    ghost var log: seq<Sending>

    constructor (fate: nat -> Fate)
      ensures sent == [] && log == [] && calls == 0 && this.fate == fate
    {
      this.fate, calls, sent, log := fate, 0, [], [];
    }

    /** The device answers every call. */
    ghost predicate AlwaysAnswers() { forall n :: fate(n).reply.Answer? }

    /** Sends lines one by one; all of them are out when the device answers. */
    method Send(lines: seq<string>) returns (reply: Reply, ghost call: Sending)
      modifies this
      ensures call.lines == lines && call.reply == reply && call.out <= |lines| && (reply.Answer? ==> Out(call) == lines)
      ensures sent == old(sent) + Out(call) && log == old(log) + [call]
      ensures Made(fate(old(calls)), call) && calls == old(calls) + 1
      ensures AlwaysAnswers() ==> reply.Answer?
    {
      reply := fate(calls).reply;
      ghost var n := if reply.Answer? then |lines| else Min(fate(calls).lines, |lines|);
      call := Sending(lines, reply, n);
      sent, log, calls := sent + Out(call), log + [call], calls + 1;
    }

    /** A call that sends no command line: login, enable, entering or leaving configuration mode. */
    method Control() returns (ok: bool)
      modifies this`calls
      ensures ok <==> fate(old(calls)).reply.Answer?
      ensures calls == old(calls) + 1
    {
      ok := fate(calls).reply.Answer?;
      calls := calls + 1;
    }
  }

  // ---------------------------------------------------------------- what some calls sent

  /** The lines put out by the first `n` calls. */
  function LinesOut(calls: seq<Sending>, n: nat): seq<string>
    requires n <= |calls|
  {
    if n == 0 then [] else LinesOut(calls, n - 1) + Out(calls[n - 1])
  }

  /** No call broke off so far. */
  predicate AllAnswered(calls: seq<Sending>) { forall k :: 0 <= k < |calls| ==> calls[k].reply.Answer? }

  /** `calls` put out `sent`; an answered call put out all its lines, and only the last can be without an answer. */
  ghost predicate Traced(calls: seq<Sending>, sent: seq<string>) {
    && (forall k :: 0 <= k < |calls| && calls[k].reply.Answer? ==> Out(calls[k]) == calls[k].lines)
    && (forall k :: 0 <= k < |calls| - 1 ==> calls[k].reply.Answer?)
    && sent == LinesOut(calls, |calls|)
  }

  /** What the transport made of each call: the call number `start + k` of the connection. */
  ghost predicate By(fate: nat -> Fate, start: nat, calls: seq<Sending>) {
    var n := |calls| - 1;
    calls != [] ==> By(fate, start, calls[..n]) && Made(fate(start + n), calls[n])
  }

  /** How many lines go out is the transport's choice unless it answers. */
  predicate Made(fate: Fate, call: Sending) {
    call.reply == fate.reply && call.out == if fate.reply.Answer? then |call.lines| else Min(fate.lines, |call.lines|)
  }

  lemma {:induction false} ByMore(fate: nat -> Fate, start: nat, calls: seq<Sending>, call: Sending)
    requires By(fate, start, calls) && Made(fate(start + |calls|), call)
    ensures By(fate, start, calls + [call])
  {
    assert (calls + [call])[..|calls|] == calls;
  }

  lemma {:induction false} ByAt(fate: nat -> Fate, start: nat, calls: seq<Sending>, k: nat)
    requires By(fate, start, calls) && k < |calls|
    ensures Made(fate(start + k), calls[k])
  {
    if k < |calls| - 1 {
      ByAt(fate, start, calls[..|calls| - 1], k);
    }
  }

  /** Calls that put nothing out. */
  lemma {:induction false} SilentTransport(fate: nat -> Fate, start: nat, calls: seq<Sending>)
    requires By(fate, start, calls) && forall n :: start <= n ==> !fate(n).reply.Answer? && fate(n).lines == 0
    ensures LinesOut(calls, |calls|) == []
  {
    forall k | 0 <= k < |calls| ensures Out(calls[k]) == [] {
      ByAt(fate, start, calls, k);
    }
    NoneOutOf(calls, |calls|);
    NoLinesOut(calls, |calls|);
  }

  lemma {:induction false} LinesOutFrame(calls: seq<Sending>, more: Sending, n: nat)
    requires n <= |calls|
    ensures LinesOut(calls + [more], n) == LinesOut(calls, n)
  {
    if n > 0 {
      LinesOutFrame(calls, more, n - 1);
    }
  }

  lemma {:induction false} TracedMore(calls: seq<Sending>, sent: seq<string>, call: Sending)
    requires Traced(calls, sent) && AllAnswered(calls) && (call.reply.Answer? ==> Out(call) == call.lines)
    ensures Traced(calls + [call], sent + Out(call))
  {
    LinesOutFrame(calls, call, |calls|);
  }

  /** The first call that had lines to send was not answered, and put none of them out. */
  ghost predicate FirstSilent(calls: seq<Sending>) {
    exists n :: 0 <= n < |calls| && !calls[n].reply.Answer? && Out(calls[n]) == []
                && forall k :: 0 <= k < n ==> calls[k].lines == []
  }

  lemma {:induction false} EmptySum<T>(a: seq<T>, b: seq<T>)
    ensures a + b == [] <==> a == [] && b == []
  {
    assert |a + b| == |a| + |b|;
  }

  predicate NoneOut(calls: seq<Sending>, n: nat)
    requires n <= |calls|
  {
    n == 0 || (NoneOut(calls, n - 1) && Out(calls[n - 1]) == [])
  }

  lemma {:induction false} NoneOutAt(calls: seq<Sending>, n: nat, k: nat)
    requires k < n <= |calls| && NoneOut(calls, n)
    ensures Out(calls[k]) == []
  {
    if k < n - 1 {
      NoneOutAt(calls, n - 1, k);
    }
  }

  lemma {:induction false} NoneOutOf(calls: seq<Sending>, n: nat)
    requires n <= |calls| && forall k :: 0 <= k < n ==> Out(calls[k]) == []
    ensures NoneOut(calls, n)
  {
    if n > 0 {
      NoneOutOf(calls, n - 1);
    }
  }

  lemma {:induction false} NoLinesOut(calls: seq<Sending>, n: nat)
    requires n <= |calls|
    ensures LinesOut(calls, n) == [] <==> NoneOut(calls, n)
  {
    if n > 0 {
      NoLinesOut(calls, n - 1);
      EmptySum(LinesOut(calls, n - 1), Out(calls[n - 1]));
    }
  }

  lemma {:induction false} SilenceSendsNothing(calls: seq<Sending>, n: nat)
    requires Traced(calls, LinesOut(calls, |calls|)) && n < |calls| && !calls[n].reply.Answer? && Out(calls[n]) == []
    requires forall k :: 0 <= k < n ==> calls[k].lines == []
    ensures LinesOut(calls, |calls|) == [] && !AllAnswered(calls)
  {
    assert n == |calls| - 1;
    NoneOutOf(calls, |calls|);
    NoLinesOut(calls, |calls|);
  }

  lemma {:induction false} NothingSentIsSilence(calls: seq<Sending>)
    requires Traced(calls, []) && !AllAnswered(calls)
    ensures FirstSilent(calls)
  {
    NoLinesOut(calls, |calls|);
    var n := |calls| - 1;
    forall k | 0 <= k <= n ensures Out(calls[k]) == [] {
      NoneOutAt(calls, |calls|, k);
    }
    assert !calls[n].reply.Answer?;
  }

  /** Calls of which the last broke off sent nothing exactly when they were silent from the start. */
  lemma {:induction false} SilentExactly(calls: seq<Sending>, sent: seq<string>)
    requires Traced(calls, sent)
    ensures FirstSilent(calls) <==> sent == [] && !AllAnswered(calls)
  {
    if sent == [] && !AllAnswered(calls) {
      NothingSentIsSilence(calls);
    } else if FirstSilent(calls) {
      var n :| 0 <= n < |calls| && !calls[n].reply.Answer? && Out(calls[n]) == []
               && forall k :: 0 <= k < n ==> calls[k].lines == [];
      SilenceSendsNothing(calls, n);
    }
  }

  /** The transport breaks off or refuses before any line is out. */
  predicate Silent(fate: Fate) { !fate.reply.Answer? && fate.lines == 0 }

  /** Calls that begin with one line are silent exactly when the transport is silent at the first of them. */
  lemma {:induction false} SilentFromFate(fate: nat -> Fate, start: nat, calls: seq<Sending>)
    requires By(fate, start, calls) && calls != [] && |calls[0].lines| == 1
    ensures FirstSilent(calls) <==> Silent(fate(start))
  {
    ByAt(fate, start, calls, 0);
    if Silent(fate(start)) {
      assert Out(calls[0]) == [];
    }
  }

  lemma {:induction false} OneLineOut(call: Sending, line: string)
    requires call.lines == [line] && call.out <= 1
    ensures Out(call) == if call.out == 0 then [] else [line]
  {
  }

  lemma {:induction false} OneCallTraced(call: Sending)
    requires call.reply.Answer? ==> Out(call) == call.lines
    ensures Traced([call], Out(call))
  {
    assert LinesOut([call], 0) == [];
    assert LinesOut([call], 1) == [] + Out(call);
    assert [] + Out(call) == Out(call);
  }

  lemma {:induction false} OneCallBy(fate: nat -> Fate, start: nat, call: Sending)
    requires Made(fate(start), call)
    ensures By(fate, start, [call])
  {
    assert [call][..0] == [];
  }

  /** A first call of one line. */
  lemma {:induction false} FirstCallMade(fate: nat -> Fate, start: nat, call: Sending, line: string)
    requires Made(fate(start), call) && call.lines == [line] && call.out <= 1
    ensures Traced([call], Out(call)) && By(fate, start, [call])
    ensures Out(call) <= [line] && (Out(call) == [] <==> Silent(fate(start)))
    ensures call.reply.Answer? ==> Out(call) == [line]
  {
    OneLineOut(call, line);
    OneCallTraced(call);
    OneCallBy(fate, start, call);
  }

  // ---------------------------------------------------------------- one batch of configuration

  /** What the device said to the first `n` calls. */
  function Outputs(calls: seq<Sending>, n: nat): seq<string>
    requires n <= |calls|
  {
    if n == 0 then []
    else Outputs(calls, n - 1) + (if calls[n - 1].reply.Answer? then [calls[n - 1].reply.output] else [])
  }

  lemma {:induction false} OutputsFrame(calls: seq<Sending>, more: Sending, n: nat)
    requires n <= |calls|
    ensures Outputs(calls + [more], n) == Outputs(calls, n)
  {
    if n > 0 {
      OutputsFrame(calls, more, n - 1);
    }
  }

  /** One more call. */
  lemma {:induction false} OneMoreOutput(calls: seq<Sending>, more: Sending)
    ensures Outputs(calls + [more], |calls| + 1)
            == Outputs(calls, |calls|) + (if more.reply.Answer? then [more.reply.output] else [])
  {
    OutputsFrame(calls, more, |calls|);
  }

  lemma {:induction false} Appended<T>(a: seq<T>, b: seq<T>, x: T)
    ensures a + b + [x] == a + (b + [x])
  {
  }

  lemma {:induction false} Rest<T>(a: seq<T>, b: seq<T>, c: seq<T>)
    ensures a + b + c == a + (b + c)
  {
  }

  /** One more call after `calls`, which were all answered. */
  method SendMore(c: Connection, lines: seq<string>, ghost start: nat, ghost log0: seq<Sending>, ghost sent0: seq<string>,
                  ghost calls: seq<Sending>, ghost sent: seq<string>)
    returns (reply: Reply, ghost call: Sending, ghost calls': seq<Sending>, ghost sent': seq<string>)
    requires By(c.fate, start, calls) && c.calls == start + |calls|
    requires c.log == log0 + calls && c.sent == sent0 + sent && Traced(calls, sent) && AllAnswered(calls)
    modifies c
    ensures By(c.fate, start, calls') && c.calls == start + |calls'|
    ensures c.log == log0 + calls' && c.sent == sent0 + sent' && Traced(calls', sent')
    ensures calls' == calls + [call] && sent' == sent + Out(call)
    ensures call.lines == lines && call.reply == reply && call.out <= |lines| && (reply.Answer? ==> Out(call) == lines)
    ensures Outputs(calls', |calls'|) == Outputs(calls, |calls|) + (if reply.Answer? then [reply.output] else [])
    ensures c.AlwaysAnswers() ==> reply.Answer?
  {
    reply, call := c.Send(lines);
    calls', sent' := calls + [call], sent + Out(call);
    TracedMore(calls, sent, call);
    OneMoreOutput(calls, call);
    ByMore(c.fate, start, calls, call);
    Appended(log0, calls, call);
    Rest(sent0, sent, Out(call));
  }

  predicate HasPlaceholders(blocks: seq<Block>) {
    exists k, i | 0 <= k < |blocks| && 0 <= i < |blocks[k].lines| :: HasPlaceholder(blocks[k].lines[i])
  }

  predicate LastReply(calls: seq<Sending>, reply: Reply) { calls != [] && calls[|calls| - 1].reply == reply }

  function Failed(error: ErrorClass, applied: seq<string>, failed: string, notSent: seq<string>): Batch {
    Failure(ExecutionResult(false, true, Some(error), Some(Report(applied, failed, notSent))))
  }

  function ErrorOf(reply: Reply, refused: ErrorClass): ErrorClass { if reply.Refused? then refused else Crashed }

  function Names(blocks: seq<Block>): (r: seq<string>)
    ensures |r| == |blocks|
  {
    seq(|blocks|, i requires 0 <= i < |blocks| => blocks[i].name)
  }

  /** A report speaks about the interfaces the command was given, in their order. */
  lemma {:induction false} NamesOfBlocks(templates: seq<string>, names: seq<string>)
    ensures Names(Blocks(templates, names)) == names
  {
  }

  lemma {:induction false} NamesMore(blocks: seq<Block>, k: nat)
    requires k < |blocks|
    ensures Names(blocks)[..k + 1] == Names(blocks)[..k] + [blocks[k].name]
  {
  }

  method AnyPlaceholder(blocks: seq<Block>) returns (found: bool)
    ensures found <==> HasPlaceholders(blocks)
  {
    for k := 0 to |blocks|
      invariant forall j, i | 0 <= j < k && 0 <= i < |blocks[j].lines| :: !HasPlaceholder(blocks[j].lines[i])
    {
      for i := 0 to |blocks[k].lines|
        invariant forall h | 0 <= h < i :: !HasPlaceholder(blocks[k].lines[h])
      {
        if HasPlaceholder(blocks[k].lines[i]) {
          return true;
        }
      }
    }
    return false;
  }

  /** The calls for the first `n` interfaces, each answered. */
  ghost predicate BlocksAnswered(calls: seq<Sending>, blocks: seq<Block>, n: nat)
    requires n <= |blocks|
  {
    |calls| >= n && forall k :: 0 <= k < n ==> calls[k].lines == blocks[k].lines && calls[k].reply.Answer?
  }

  lemma {:induction false} BlocksMore(calls: seq<Sending>, blocks: seq<Block>, n: nat, call: Sending)
    requires n < |blocks| && |calls| == n && BlocksAnswered(calls, blocks, n) && call.lines == blocks[n].lines
    ensures BlocksAnswered(calls + [call], blocks, n) && AllAnswered(calls)
    ensures call.reply.Answer? ==> BlocksAnswered(calls + [call], blocks, n + 1)
  {
  }

  /** Sends the interfaces one by one, each in its own call, up to the first that does not answer. */
  method SendBlocks(c: Connection, blocks: seq<Block>)
    returns (applied: seq<string>, outputs: seq<string>, reply: Reply, ghost calls: seq<Sending>, ghost sent: seq<string>)
    modifies c
    ensures c.log == old(c.log) + calls && c.sent == old(c.sent) + sent && Traced(calls, sent)
    ensures By(c.fate, old(c.calls), calls) && c.calls == old(c.calls) + |calls|
    ensures |applied| <= |blocks| && applied == Names(blocks)[..|applied|] && BlocksAnswered(calls, blocks, |applied|)
    ensures |applied| == |blocks| ==>
              |calls| == |blocks| && sent == LinesOf(blocks, |blocks|) && outputs == Outputs(calls, |blocks|)
    ensures |applied| < |blocks| ==>
              && !reply.Answer? && |calls| == |applied| + 1 && calls[|applied|].reply == reply
              && calls[|applied|].lines == blocks[|applied|].lines && calls[|applied|].out <= |calls[|applied|].lines|
              && sent == LinesOf(blocks, |applied|) + Out(calls[|applied|])
    ensures c.AlwaysAnswers() ==> |applied| == |blocks|
  {
    applied, outputs, reply, calls, sent := [], [], Answer(""), [], [];
    for k := 0 to |blocks|
      invariant |applied| == k && applied == Names(blocks)[..k] && |calls| == k && sent == LinesOf(blocks, k)
      invariant c.log == old(c.log) + calls && c.sent == old(c.sent) + sent
      invariant By(c.fate, old(c.calls), calls) && c.calls == old(c.calls) + |calls|
      invariant Traced(calls, sent) && BlocksAnswered(calls, blocks, k) && outputs == Outputs(calls, k)
    {
      ghost var before, call := calls, Sending([], Broke, 0);
      reply, call, calls, sent := SendMore(c, blocks[k].lines, old(c.calls), old(c.log), old(c.sent), calls, sent);
      BlocksMore(before, blocks, k, call);
      NamesMore(blocks, k);
      if !reply.Answer? {
        return;
      }
      outputs := outputs + [reply.output];
      applied := applied + [blocks[k].name];
    }
  }

  /** A commit call is justified by an answer for every interface and, where the vendor has one, a check whose answer
      carries its confirmation. */
  ghost predicate CommitJustified(calls: seq<Sending>, blocks: seq<Block>, rules: VendorRules) {
    && BlocksAnswered(calls, blocks, |blocks|)
    && (rules.check.Some? ==>
          && |calls| > |blocks| && calls[|blocks|].lines == [rules.check.value]
          && calls[|blocks|].reply.Answer? && rules.checkPassed(calls[|blocks|].reply.output))
  }

  function BeforeCommit(blocks: seq<Block>, rules: VendorRules): nat {
    |LinesOf(blocks, |blocks|)| + |CheckLines(rules)|
  }

  /** How a batch that stopped at one interface is reported: applied, failed and not sent are together all the names, in
      order; vendors that must commit have applied nothing. */
  ghost predicate SplitAt(result: ExecutionResult, blocks: seq<Block>, k: nat, rules: VendorRules) {
    && k < |blocks| && result.report.Some?
    && result.report.value.failed == blocks[k].name
    && result.report.value.notSent == Names(blocks)[k + 1..]
    && (rules.commit != [] ==> result.report.value.applied == [])
    && (rules.commit == [] ==>
          && result.report.value.applied == Names(blocks)[..k]
          && result.report.value.applied + [result.report.value.failed] + result.report.value.notSent == Names(blocks))
  }

  ghost predicate StoppedIn(result: ExecutionResult, blocks: seq<Block>, rules: VendorRules, sent: seq<string>, k: nat) {
    SplitAt(result, blocks, k, rules) && LinesOf(blocks, k) <= sent && sent <= LinesOf(blocks, k + 1)
  }

  /** A failed batch says where it stopped: at one interface, with only that one begun, or later, with every
      interface's lines sent and none of them in force. */
  ghost predicate StoppedAt(result: ExecutionResult, blocks: seq<Block>, rules: VendorRules, sent: seq<string>) {
    || (exists k :: 0 <= k && StoppedIn(result, blocks, rules, sent, k))
    || (result.report.Some? && result.report.value.applied == [] && result.report.value.notSent == []
        && LinesOf(blocks, |blocks|) <= sent)
    || (result.error == Some(Placeholder) && sent == [])
    || (result.error == Some(Unconfirmed) && sent == Rendered(blocks, rules))
  }

  /** Every failure has its cause in what the device did: a call it refused or broke, a check that was not confirmed, or
      a missing confirmation at the end; only a placeholder fails without any call. */
  ghost predicate Caused(result: ExecutionResult, blocks: seq<Block>, rules: VendorRules, calls: seq<Sending>) {
    match result.error
    case Some(Placeholder) => HasPlaceholders(blocks) && calls == []
    case Some(DeviceRejected) => LastReply(calls, Refused)
    case Some(CheckFailed) => LastReply(calls, Refused) && rules.check.Some? && |calls| == |blocks| + 1
    case Some(Crashed) => LastReply(calls, Broke)
    case Some(CheckUnconfirmed) =>
      rules.check.Some? && |calls| == |blocks| + 1 && calls[|blocks|].reply.Answer? && !rules.checkPassed(calls[|blocks|].reply.output)
    case Some(Unconfirmed) => rules.needsMarker && !rules.committed(Outputs(calls, |calls|)) && CommitJustified(calls, blocks, rules)
    case _ => false
  }

  /** Errors that are about what the device said, or about the template, not about the connection. */
  predicate Objection(error: Option<ErrorClass>) {
    error == Some(Placeholder) || error == Some(DeviceRejected) || error == Some(CheckUnconfirmed) || error == Some(Unconfirmed)
  }

  /** Everything a batch guarantees about the lines it sent, the calls it made and what it reports. */
  ghost predicate BatchOk(batch: Batch, blocks: seq<Block>, rules: VendorRules, sent: seq<string>, calls: seq<Sending>) {
    && sent <= Rendered(blocks, rules)
    && (|sent| > BeforeCommit(blocks, rules) ==> CommitJustified(calls, blocks, rules))
    && match batch
       case Output(texts) =>
         sent == Rendered(blocks, rules) && texts == Outputs(calls, |calls|) && (rules.needsMarker ==> rules.committed(texts))
       case Failure(result) =>
         !result.ok && result.dispatched && StoppedAt(result, blocks, rules, sent) && Caused(result, blocks, rules, calls)
  }

  /** How many calls a batch makes when every call is answered, and the lines of call `k` of them. */
  function PlannedCalls(blocks: seq<Block>, rules: VendorRules): nat {
    |blocks| + |CheckLines(rules)| + (if rules.commit == [] then 0 else 1)
  }

  function Planned(blocks: seq<Block>, rules: VendorRules, k: nat): seq<string> {
    if k < |blocks| then blocks[k].lines
    else if k == |blocks| && rules.check.Some? then [rules.check.value]
    else rules.commit
  }

  ghost predicate Follows(calls: seq<Sending>, blocks: seq<Block>, rules: VendorRules) {
    |calls| <= PlannedCalls(blocks, rules) && forall k :: 0 <= k < |calls| ==> calls[k].lines == Planned(blocks, rules, k)
  }

  lemma {:induction false} FollowsBlocks(calls: seq<Sending>, blocks: seq<Block>, rules: VendorRules)
    requires |calls| <= |blocks| && forall k :: 0 <= k < |calls| ==> calls[k].lines == blocks[k].lines
    ensures Follows(calls, blocks, rules)
  {
  }

  lemma {:induction false} FollowsMore(calls: seq<Sending>, call: Sending, blocks: seq<Block>, rules: VendorRules)
    requires Follows(calls, blocks, rules) && |calls| < PlannedCalls(blocks, rules)
    requires call.lines == Planned(blocks, rules, |calls|)
    ensures Follows(calls + [call], blocks, rules)
  {
  }

  /** The transport is silent at call `n` of the plan, and the calls before it have nothing to send. */
  ghost predicate SilentAt(blocks: seq<Block>, rules: VendorRules, fate: nat -> Fate, start: nat, n: nat) {
    && n < PlannedCalls(blocks, rules)
    && !fate(start + n).reply.Answer? && (fate(start + n).lines == 0 || Planned(blocks, rules, n) == [])
    && forall k: nat :: k < n ==> Planned(blocks, rules, k) == []
  }

  /** A batch that heard an answer to everything it sent stopped only after all lines, or at its check. */
  ghost predicate HeardOut(blocks: seq<Block>, rules: VendorRules, sent: seq<string>, calls: seq<Sending>) {
    && Traced(calls, sent) && (AllAnswered(calls) ==> sent == Rendered(blocks, rules) || sent != [])
    && Follows(calls, blocks, rules)
  }

  /** When nothing goes out in configuration mode: a placeholder is left in a line, there is no line at all, or the transport
      is silent at a call before any line is out. */
  ghost predicate NothingOut(blocks: seq<Block>, rules: VendorRules, fate: nat -> Fate, start: nat) {
    || HasPlaceholders(blocks) || Rendered(blocks, rules) == []
    || exists n: nat :: SilentAt(blocks, rules, fate, start, n)
  }

  lemma {:induction false} SilentByPlan(blocks: seq<Block>, rules: VendorRules, fate: nat -> Fate, start: nat,
                                        calls: seq<Sending>)
    requires By(fate, start, calls) && Follows(calls, blocks, rules) && FirstSilent(calls)
    ensures exists n: nat :: SilentAt(blocks, rules, fate, start, n)
  {
    var n: nat :| n < |calls| && !calls[n].reply.Answer? && Out(calls[n]) == [] && forall k :: 0 <= k < n ==> calls[k].lines == [];
    ByAt(fate, start, calls, n);
    assert SilentAt(blocks, rules, fate, start, n);
  }

  lemma {:induction false} PlanIsSilent(blocks: seq<Block>, rules: VendorRules, fate: nat -> Fate, start: nat,
                                        calls: seq<Sending>, sent: seq<string>, n: nat)
    requires By(fate, start, calls) && Follows(calls, blocks, rules) && Traced(calls, sent)
    requires SilentAt(blocks, rules, fate, start, n)
    ensures sent == []
  {
    if n < |calls| {
      ByAt(fate, start, calls, n);
    }
    forall k | 0 <= k < |calls| ensures Out(calls[k]) == [] {
      assert calls[k].lines == Planned(blocks, rules, k);
    }
    NoneOutOf(calls, |calls|);
    NoLinesOut(calls, |calls|);
  }

  lemma {:induction false} NothingOutExactly(blocks: seq<Block>, rules: VendorRules, fate: nat -> Fate, start: nat,
                                             sent: seq<string>, calls: seq<Sending>)
    requires !HasPlaceholders(blocks) && HeardOut(blocks, rules, sent, calls) && sent <= Rendered(blocks, rules)
    requires By(fate, start, calls)
    ensures sent == [] <==> NothingOut(blocks, rules, fate, start)
  {
    SilentExactly(calls, sent);
    if FirstSilent(calls) {
      SilentByPlan(blocks, rules, fate, start, calls);
    }
    if n: nat :| SilentAt(blocks, rules, fate, start, n) {
      PlanIsSilent(blocks, rules, fate, start, calls, sent, n);
    }
  }

  /** Configures the interfaces on a connection in configuration mode: blocks, then the check, then the commit. */
  method RunConfigBatch(c: Connection, blocks: seq<Block>, rules: VendorRules)
    returns (batch: Batch, ghost calls: seq<Sending>, ghost sent: seq<string>)
    modifies c
    ensures c.log == old(c.log) + calls && c.sent == old(c.sent) + sent && Traced(calls, sent)
    ensures By(c.fate, old(c.calls), calls)
    ensures BatchOk(batch, blocks, rules, sent, calls)
    ensures sent == [] <==> NothingOut(blocks, rules, c.fate, old(c.calls))
    ensures c.AlwaysAnswers() && batch.Failure? ==> Objection(batch.result.error)
  {
    var placeholder := AnyPlaceholder(blocks);
    if placeholder {
      return Failure(ExecutionResult(false, true, Some(Placeholder), None)), [], [];
    }
    batch, calls, sent := SendBatch(c, blocks, rules);
    NothingOutExactly(blocks, rules, c.fate, old(c.calls), sent, calls);
  }

  /** The batch itself. */
  method SendBatch(c: Connection, blocks: seq<Block>, rules: VendorRules)
    returns (batch: Batch, ghost calls: seq<Sending>, ghost sent: seq<string>)
    modifies c
    ensures c.log == old(c.log) + calls && c.sent == old(c.sent) + sent && By(c.fate, old(c.calls), calls)
    ensures BatchOk(batch, blocks, rules, sent, calls) && HeardOut(blocks, rules, sent, calls)
    ensures c.AlwaysAnswers() && batch.Failure? ==> Objection(batch.result.error)
  {
    var applied, outputs, reply;
    applied, outputs, reply, calls, sent := SendBlocks(c, blocks);
    if |applied| == |blocks| {
      batch, calls, sent := FinishBatch(c, blocks, rules, old(c.calls), old(c.log), old(c.sent), outputs, calls, sent);
    } else {
      batch := BlockFailure(blocks, rules, applied, reply, calls, sent);
    }
  }

  /** The report of a batch that stopped at one interface. */
  method BlockFailure(blocks: seq<Block>, rules: VendorRules, applied: seq<string>, reply: Reply,
                      ghost calls: seq<Sending>, ghost sent: seq<string>)
    returns (batch: Batch)
    requires |applied| < |blocks| && applied == Names(blocks)[..|applied|] && BlocksAnswered(calls, blocks, |applied|)
    requires Traced(calls, sent) && !reply.Answer? && |calls| == |applied| + 1 && calls[|applied|].reply == reply
    requires calls[|applied|].lines == blocks[|applied|].lines && calls[|applied|].out <= |calls[|applied|].lines|
    requires sent == LinesOf(blocks, |applied|) + Out(calls[|applied|])
    ensures batch.Failure? && BatchOk(batch, blocks, rules, sent, calls) && HeardOut(blocks, rules, sent, calls)
  {
    var k := |applied|;
    var notSent := Names(blocks)[k + 1..];
    batch := Failed(ErrorOf(reply, DeviceRejected), if rules.commit != [] then [] else applied, blocks[k].name, notSent);
    BlockFailed(batch, blocks, rules, k, calls[k].out, calls);
    FollowsBlocks(calls, blocks, rules);
  }

  lemma {:induction false} BlockFailed(batch: Batch, blocks: seq<Block>, rules: VendorRules, k: nat, n: nat,
                                       calls: seq<Sending>)
    requires batch.Failure? && !batch.result.ok && batch.result.dispatched && Caused(batch.result, blocks, rules, calls)
    requires SplitAt(batch.result, blocks, k, rules) && n <= |blocks[k].lines|
    ensures BatchOk(batch, blocks, rules, LinesOf(blocks, k) + blocks[k].lines[..n], calls)
  {
    var sent := LinesOf(blocks, k) + blocks[k].lines[..n];
    PartIsPrefix(blocks, rules, k, n);
    ShortOfCommit(blocks, rules, k, n);
    PrefixOfPart(LinesOf(blocks, k), blocks[k].lines, n);
    assert LinesOf(blocks, k) <= sent;
    assert StoppedIn(batch.result, blocks, rules, sent, k);
  }

  /** Lines of an interface are never past the commit. */
  lemma {:induction false} ShortOfCommit(blocks: seq<Block>, rules: VendorRules, k: nat, n: nat)
    requires k < |blocks| && n <= |blocks[k].lines|
    ensures |LinesOf(blocks, k) + blocks[k].lines[..n]| <= BeforeCommit(blocks, rules)
  {
    LinesPrefix(blocks, k + 1, |blocks|);
  }

  /** After all interfaces: the check and the commit. */
  method FinishBatch(c: Connection, blocks: seq<Block>, rules: VendorRules,
                     ghost start: nat, ghost log0: seq<Sending>, ghost sent0: seq<string>,
                     outputs: seq<string>, ghost calls: seq<Sending>, ghost sent: seq<string>)
    returns (batch: Batch, ghost calls': seq<Sending>, ghost sent': seq<string>)
    requires By(c.fate, start, calls) && c.calls == start + |calls|
    requires c.log == log0 + calls && c.sent == sent0 + sent && Traced(calls, sent)
    requires |calls| == |blocks| && BlocksAnswered(calls, blocks, |blocks|) && sent == LinesOf(blocks, |blocks|)
    requires outputs == Outputs(calls, |blocks|)
    modifies c
    ensures By(c.fate, start, calls') && c.calls == start + |calls'|
    ensures c.log == log0 + calls' && c.sent == sent0 + sent'
    ensures BatchOk(batch, blocks, rules, sent', calls') && HeardOut(blocks, rules, sent', calls')
    ensures c.AlwaysAnswers() && batch.Failure? ==> Objection(batch.result.error)
  {
    var failure, outputs';
    failure, outputs', calls', sent' := CheckBatch(c, blocks, rules, start, log0, sent0, outputs, calls, sent);
    if failure.Some? {
      return failure.value, calls', sent';
    }
    batch, calls', sent' := CommitBatch(c, blocks, rules, start, log0, sent0, outputs', calls', sent');
  }

  /** The report of a batch that stopped at its check. */
  function CheckFailure(check: string, reply: Reply): Batch {
    Failed(if reply.Answer? then CheckUnconfirmed else ErrorOf(reply, CheckFailed), [], check, [])
  }

  lemma {:induction false} CheckFailureOk(blocks: seq<Block>, rules: VendorRules, calls: seq<Sending>, sent: seq<string>,
                                          call: Sending)
    requires rules.check.Some? && |calls| == |blocks| + 1 && calls[|blocks|] == call
    requires call.lines == [rules.check.value] && call.out <= 1 && sent == LinesOf(blocks, |blocks|) + Out(call)
    requires Traced(calls, sent) && Follows(calls, blocks, rules)
    requires call.reply.Answer? ==> !rules.checkPassed(call.reply.output)
    ensures var batch := CheckFailure(rules.check.value, call.reply);
            BatchOk(batch, blocks, rules, sent, calls) && HeardOut(blocks, rules, sent, calls)
  {
    CheckSent(blocks, rules, call.out);
  }

  /** The check before the commit, for vendors that have one. */
  method CheckBatch(c: Connection, blocks: seq<Block>, rules: VendorRules,
                    ghost start: nat, ghost log0: seq<Sending>, ghost sent0: seq<string>,
                    outputs: seq<string>, ghost calls: seq<Sending>, ghost sent: seq<string>)
    returns (failure: Option<Batch>, outputs': seq<string>, ghost calls': seq<Sending>, ghost sent': seq<string>)
    requires By(c.fate, start, calls) && c.calls == start + |calls|
    requires c.log == log0 + calls && c.sent == sent0 + sent && Traced(calls, sent)
    requires |calls| == |blocks| && BlocksAnswered(calls, blocks, |blocks|) && sent == LinesOf(blocks, |blocks|)
    requires outputs == Outputs(calls, |blocks|)
    modifies c
    ensures By(c.fate, start, calls') && c.calls == start + |calls'|
    ensures c.log == log0 + calls' && c.sent == sent0 + sent' && Traced(calls', sent')
    ensures failure.Some? ==> failure.value.Failure? && BatchOk(failure.value, blocks, rules, sent', calls')
                              && HeardOut(blocks, rules, sent', calls')
    ensures c.AlwaysAnswers() && failure.Some? ==> Objection(failure.value.result.error)
    ensures failure.None? ==> sent' == LinesOf(blocks, |blocks|) + CheckLines(rules) && AllAnswered(calls')
                              && Follows(calls', blocks, rules) && |calls'| == |blocks| + |CheckLines(rules)|
                              && CommitJustified(calls', blocks, rules) && outputs' == Outputs(calls', |calls'|)
  {
    outputs', calls', sent', failure := outputs, calls, sent, None;
    FollowsBlocks(calls, blocks, rules);
    if rules.check.Some? {
      var reply;
      ghost var call;
      reply, call, calls', sent' := SendMore(c, [rules.check.value], start, log0, sent0, calls, sent);
      FollowsMore(calls, call, blocks, rules);
      if !reply.Answer? || !rules.checkPassed(reply.output) {
        failure := Some(CheckFailure(rules.check.value, reply));
        CheckFailureOk(blocks, rules, calls', sent', call);
      }
      outputs' := if reply.Answer? then outputs + [reply.output] else outputs;
    }
  }

  /** What is sent up to the check. */
  lemma {:induction false} CheckSent(blocks: seq<Block>, rules: VendorRules, n: nat)
    requires rules.check.Some? && n <= 1
    ensures var sent := LinesOf(blocks, |blocks|) + [rules.check.value][..n];
            sent <= Rendered(blocks, rules) && |sent| <= BeforeCommit(blocks, rules) && LinesOf(blocks, |blocks|) <= sent
  {
    RenderedStarts(blocks, rules);
  }

  lemma {:induction false} JustifiedMore(calls: seq<Sending>, blocks: seq<Block>, rules: VendorRules, call: Sending)
    requires CommitJustified(calls, blocks, rules)
    ensures CommitJustified(calls + [call], blocks, rules)
  {
  }

  /** The commit that was not answered. */
  lemma {:induction false} CommitFailed(blocks: seq<Block>, rules: VendorRules, calls: seq<Sending>, sent: seq<string>,
                                        call: Sending)
    requires sent == LinesOf(blocks, |blocks|) + CheckLines(rules) + Out(call)
    requires Traced(calls, sent) && calls != [] && calls[|calls| - 1] == call && CommitJustified(calls, blocks, rules)
    requires call.lines == rules.commit && call.out <= |call.lines| && !call.reply.Answer?
    requires Follows(calls, blocks, rules)
    ensures var batch := Failed(ErrorOf(call.reply, DeviceRejected), [], "commit", []);
            BatchOk(batch, blocks, rules, sent, calls) && HeardOut(blocks, rules, sent, calls)
  {
    CommitSent(blocks, rules, call.out);
  }

  /** The commit call after the check; what follows from its reply. */
  lemma {:induction false} CommitMade(blocks: seq<Block>, rules: VendorRules, calls: seq<Sending>, call: Sending)
    requires CommitJustified(calls, blocks, rules) && Follows(calls, blocks, rules)
    requires rules.commit != [] && call.lines == rules.commit && |calls| == |blocks| + |CheckLines(rules)|
    ensures CommitJustified(calls + [call], blocks, rules) && Follows(calls + [call], blocks, rules)
  {
    JustifiedMore(calls, blocks, rules, call);
    FollowsMore(calls, call, blocks, rules);
  }

  /** The commit, for vendors that have one. */
  method CommitBatch(c: Connection, blocks: seq<Block>, rules: VendorRules,
                     ghost start: nat, ghost log0: seq<Sending>, ghost sent0: seq<string>,
                     outputs: seq<string>, ghost calls: seq<Sending>, ghost sent: seq<string>)
    returns (batch: Batch, ghost calls': seq<Sending>, ghost sent': seq<string>)
    requires By(c.fate, start, calls) && c.calls == start + |calls|
    requires c.log == log0 + calls && c.sent == sent0 + sent && Traced(calls, sent) && AllAnswered(calls)
    requires sent == LinesOf(blocks, |blocks|) + CheckLines(rules)
    requires Follows(calls, blocks, rules) && |calls| == |blocks| + |CheckLines(rules)|
    requires CommitJustified(calls, blocks, rules) && outputs == Outputs(calls, |calls|)
    modifies c
    ensures By(c.fate, start, calls') && c.calls == start + |calls'|
    ensures c.log == log0 + calls' && c.sent == sent0 + sent'
    ensures BatchOk(batch, blocks, rules, sent', calls') && HeardOut(blocks, rules, sent', calls')
    ensures c.AlwaysAnswers() && batch.Failure? ==> Objection(batch.result.error)
  {
    calls', sent' := calls, sent;
    if rules.commit == [] {
      assert sent == Rendered(blocks, rules);
      batch := Judged(blocks, rules, outputs, calls, sent);
      return;
    }
    var reply;
    ghost var call;
    reply, call, calls', sent' := SendMore(c, rules.commit, start, log0, sent0, calls, sent);
    CommitMade(blocks, rules, calls, call);
    batch := CommitReport(blocks, rules, outputs, reply, calls', call, sent');
  }

  /** The report after the reply to the commit. */
  method CommitReport(blocks: seq<Block>, rules: VendorRules, outputs: seq<string>, reply: Reply,
                      ghost calls: seq<Sending>, ghost call: Sending, ghost sent: seq<string>)
    returns (batch: Batch)
    requires calls != [] && calls[|calls| - 1] == call && call.reply == reply
    requires call.lines == rules.commit && call.out <= |call.lines| && (reply.Answer? ==> Out(call) == call.lines)
    requires sent == LinesOf(blocks, |blocks|) + CheckLines(rules) + Out(call)
    requires Traced(calls, sent) && CommitJustified(calls, blocks, rules) && Follows(calls, blocks, rules)
    requires Outputs(calls, |calls|) == outputs + (if reply.Answer? then [reply.output] else [])
    ensures BatchOk(batch, blocks, rules, sent, calls) && HeardOut(blocks, rules, sent, calls)
    ensures reply.Answer? && batch.Failure? ==> Objection(batch.result.error)
  {
    if !reply.Answer? {
      CommitFailed(blocks, rules, calls, sent, call);
      return Failed(ErrorOf(reply, DeviceRejected), [], "commit", []);
    }
    batch := Judged(blocks, rules, outputs + [reply.output], calls, sent);
  }

  /** Everything was answered: the confirmation is looked for in all outputs. */
  method Judged(blocks: seq<Block>, rules: VendorRules, outputs: seq<string>, ghost calls: seq<Sending>, ghost sent: seq<string>)
    returns (batch: Batch)
    requires Traced(calls, sent) && sent == Rendered(blocks, rules) && Follows(calls, blocks, rules)
    requires CommitJustified(calls, blocks, rules) && outputs == Outputs(calls, |calls|)
    ensures BatchOk(batch, blocks, rules, sent, calls) && HeardOut(blocks, rules, sent, calls)
    ensures batch.Failure? ==> Objection(batch.result.error)
  {
    batch := if rules.needsMarker && !rules.committed(outputs)
             then Failure(ExecutionResult(false, true, Some(Unconfirmed), None)) else Output(outputs);
  }

  /** What is sent up to the commit. */
  lemma {:induction false} CommitSent(blocks: seq<Block>, rules: VendorRules, n: nat)
    requires n <= |rules.commit|
    ensures var sent := LinesOf(blocks, |blocks|) + CheckLines(rules) + rules.commit[..n];
            sent <= Rendered(blocks, rules) && LinesOf(blocks, |blocks|) <= sent
  {
    PrefixOfPart(LinesOf(blocks, |blocks|) + CheckLines(rules), rules.commit, n);
  }

  // ---------------------------------------------------------------- commands that ask for confirmation

  /** The command and then the registered answers, in order. */
  function Dialogue(line: string, steps: seq<Confirmation>): (r: seq<string>)
    ensures |r| == 1 + |steps|
  {
    [line] + seq(|steps|, i requires 0 <= i < |steps| => steps[i].response)
  }

  /** Answer `i` was given only to its own registered question, and never past an error. */
  ghost predicate AnsweredOnlyWhenAsked(calls: seq<Sending>, steps: seq<Confirmation>, isError: string -> bool, n: nat) {
    n <= |steps| && n < |calls| &&
    forall i :: 0 <= i < n ==> calls[i].reply.Answer? && steps[i].prompt(calls[i].reply.output) && !isError(calls[i].reply.output)
  }

  /** Why a dialogue ended: the device broke off, reported an error, or asked something else; otherwise it succeeded. */
  ghost predicate FlowCaused(batch: Option<Batch>, calls: seq<Sending>, steps: seq<Confirmation>, isError: string -> bool) {
    && calls != []
    && var last := calls[|calls| - 1].reply;
    match batch
    case None => !last.Answer?
    case Some(Output(_)) => last.Answer? && !isError(last.output)
    case Some(Failure(result)) =>
      && last.Answer? && !result.ok && result.dispatched
      && if result.error == Some(DeviceRejected) then isError(last.output)
         else result.error == Some(Unconfirmed) && |calls| <= |steps| && !steps[|calls| - 1].prompt(last.output)
  }

  /** The dialogue as far as it went: all of it but possibly the last line. */
  ghost predicate Talked(calls: seq<Sending>, sent: seq<string>, line: string, steps: seq<Confirmation>) {
    && Traced(calls, sent) && 1 <= |calls| <= 1 + |steps|
    && (forall k :: 0 <= k < |calls| ==> calls[k].lines == [Dialogue(line, steps)[k]])
    && sent <= Dialogue(line, steps)
    && (AllAnswered(calls) ==> sent == Dialogue(line, steps)[..|calls|])
    && (!AllAnswered(calls) ==> |sent| <= |calls|)
  }

  lemma {:induction false} TalkedMore(calls: seq<Sending>, sent: seq<string>, call: Sending, line: string,
                                      steps: seq<Confirmation>)
    requires Talked(calls, sent, line, steps) && AllAnswered(calls) && |calls| <= |steps|
    requires call.lines == [Dialogue(line, steps)[|calls|]] && (call.reply.Answer? ==> Out(call) == call.lines)
    ensures Talked(calls + [call], sent + Out(call), line, steps)
  {
    TracedMore(calls, sent, call);
    var all := Dialogue(line, steps);
    assert all[..|calls| + 1] == all[..|calls|] + [all[|calls|]];
  }

  lemma {:induction false} TalkStarts(call: Sending, line: string, steps: seq<Confirmation>)
    requires call.lines == [line] && (call.reply.Answer? ==> Out(call) == call.lines)
    ensures Talked([call], Out(call), line, steps)
  {
    TracedMore([], [], call);
    assert [] + [call] == [call] && [] + Out(call) == Out(call);
  }

  lemma {:induction false} AskedMore(calls: seq<Sending>, call: Sending, steps: seq<Confirmation>,
                                     isError: string -> bool, n: nat)
    requires n < |steps| && |calls| == n + 1 && AnsweredOnlyWhenAsked(calls, steps, isError, n)
    requires calls[n].reply.Answer? && steps[n].prompt(calls[n].reply.output) && !isError(calls[n].reply.output)
    ensures AnsweredOnlyWhenAsked(calls + [call], steps, isError, n + 1)
  {
  }

  lemma {:induction false} AskedLess(calls: seq<Sending>, steps: seq<Confirmation>, isError: string -> bool, n: nat, m: nat)
    requires AnsweredOnlyWhenAsked(calls, steps, isError, n) && m <= n
    ensures AnsweredOnlyWhenAsked(calls, steps, isError, m)
  {
  }

  /** Gives the registered answer to the registered question `i`. */
  method AnswerPrompt(c: Connection, line: string, steps: seq<Confirmation>, ghost isError: string -> bool, i: nat,
                      ghost start: nat,
                      ghost log0: seq<Sending>, ghost sent0: seq<string>, ghost calls: seq<Sending>, ghost sent: seq<string>)
    returns (reply: Reply, ghost calls': seq<Sending>, ghost sent': seq<string>)
    requires By(c.fate, start, calls) && c.calls == start + |calls|
    requires c.log == log0 + calls && c.sent == sent0 + sent && Talked(calls, sent, line, steps) && AllAnswered(calls)
    requires i < |steps| && |calls| == i + 1 && AnsweredOnlyWhenAsked(calls, steps, isError, i)
    requires steps[i].prompt(calls[i].reply.output) && !isError(calls[i].reply.output)
    modifies c
    ensures By(c.fate, start, calls') && c.calls == start + |calls'|
    ensures c.log == log0 + calls' && c.sent == sent0 + sent' && Talked(calls', sent', line, steps)
    ensures |calls'| == i + 2 && calls'[i + 1].reply == reply && (reply.Answer? <==> AllAnswered(calls'))
    ensures AnsweredOnlyWhenAsked(calls', steps, isError, i + 1)
    ensures c.AlwaysAnswers() ==> reply.Answer?
  {
    ghost var call;
    reply, call, calls', sent' := SendMore(c, [steps[i].response], start, log0, sent0, calls, sent);
    TalkedMore(calls, sent, call, line, steps);
    AskedMore(calls, call, steps, isError, i);
  }

  /** What a dialogue guarantees about what it sent and why it ended. */
  ghost predicate FlowOk(batch: Option<Batch>, calls: seq<Sending>, sent: seq<string>, line: string, steps: seq<Confirmation>,
                         isError: string -> bool, first: Fate) {
    && sent <= Dialogue(line, steps)
    && (|sent| > 1 ==> AnsweredOnlyWhenAsked(calls, steps, isError, |sent| - 1))
    && (batch.Some? && batch.value.Output? ==> sent == Dialogue(line, steps))
    && FlowCaused(batch, calls, steps, isError)
    && (sent == [] <==> Silent(first))
  }

  lemma {:induction false} AskedSoFar(calls: seq<Sending>, sent: seq<string>, line: string, steps: seq<Confirmation>,
                                      isError: string -> bool)
    requires Talked(calls, sent, line, steps) && AnsweredOnlyWhenAsked(calls, steps, isError, |calls| - 1)
    ensures |sent| > 1 ==> AnsweredOnlyWhenAsked(calls, steps, isError, |sent| - 1)
  {
    if |sent| > 1 {
      AskedLess(calls, steps, isError, |calls| - 1, |sent| - 1);
    }
  }

  lemma {:induction false} TalkIsSilent(calls: seq<Sending>, sent: seq<string>, line: string, steps: seq<Confirmation>,
                                        fate: nat -> Fate, start: nat)
    requires Talked(calls, sent, line, steps) && By(fate, start, calls)
    ensures sent == [] <==> Silent(fate(start))
  {
    SilentExactly(calls, sent);
    SilentFromFate(fate, start, calls);
  }

  lemma {:induction false} FlowEnds(batch: Option<Batch>, calls: seq<Sending>, sent: seq<string>, line: string,
                                    steps: seq<Confirmation>, isError: string -> bool, fate: nat -> Fate, start: nat)
    requires Talked(calls, sent, line, steps) && AnsweredOnlyWhenAsked(calls, steps, isError, |calls| - 1)
    requires FlowCaused(batch, calls, steps, isError) && By(fate, start, calls)
    requires batch.Some? && batch.value.Output? ==> |calls| == 1 + |steps|
    ensures FlowOk(batch, calls, sent, line, steps, isError, fate(start))
  {
    AskedSoFar(calls, sent, line, steps, isError);
    TalkIsSilent(calls, sent, line, steps, fate, start);
  }

  /** Walks through the prompts; stops, without answering, at any question that is not the registered one. */
  method RunConfirmationFlow(c: Connection, line: string, steps: seq<Confirmation>, isError: string -> bool)
    returns (batch: Option<Batch>, ghost calls: seq<Sending>, ghost sent: seq<string>)
    modifies c
    ensures c.log == old(c.log) + calls && c.sent == old(c.sent) + sent && Traced(calls, sent)
    ensures By(c.fate, old(c.calls), calls)
    ensures FlowOk(batch, calls, sent, line, steps, isError, c.fate(old(c.calls)))
    ensures c.AlwaysAnswers() ==> batch.Some?
  {
    var reply, call := c.Send([line]);
    calls, sent := [call], Out(call);
    TalkStarts(call, line, steps);
    if !reply.Answer? {
      FlowEnds(None, calls, sent, line, steps, isError, c.fate, old(c.calls));
      return None, calls, sent;
    }
    batch, calls, sent := Converse(c, line, steps, isError, reply, old(c.calls), old(c.log), old(c.sent), calls, sent);
    FlowEnds(batch, calls, sent, line, steps, isError, c.fate, old(c.calls));
  }

  /** What is wrong with an answer of the device, if anything: an error, or another question than the registered one. */
  function Objectionable(reply: Reply, steps: seq<Confirmation>, i: nat, isError: string -> bool): Option<Batch>
    requires reply.Answer? && i <= |steps|
  {
    if isError(reply.output) then Some(Failure(ExecutionResult(false, true, Some(DeviceRejected), None)))
    else if i < |steps| && !steps[i].prompt(reply.output) then Some(Failure(ExecutionResult(false, true, Some(Unconfirmed), None)))
    else None
  }

  lemma {:induction false} ObjectionCaused(calls: seq<Sending>, steps: seq<Confirmation>, i: nat, isError: string -> bool)
    requires i <= |steps| && |calls| == i + 1 && calls[i].reply.Answer?
    ensures var batch := Objectionable(calls[i].reply, steps, i, isError);
            batch.Some? ==> batch.value.Failure? && FlowCaused(batch, calls, steps, isError)
  {
  }

  /** The dialogue after the answer to the command itself. */
  method Converse(c: Connection, line: string, steps: seq<Confirmation>, isError: string -> bool, first: Reply,
                  ghost start: nat, ghost log0: seq<Sending>, ghost sent0: seq<string>,
                  ghost calls0: seq<Sending>, ghost sent1: seq<string>)
    returns (batch: Option<Batch>, ghost calls: seq<Sending>, ghost sent: seq<string>)
    requires By(c.fate, start, calls0) && c.calls == start + |calls0|
    requires c.log == log0 + calls0 && c.sent == sent0 + sent1 && Talked(calls0, sent1, line, steps)
    requires |calls0| == 1 && calls0[0].reply == first && first.Answer?
    modifies c
    ensures By(c.fate, start, calls) && c.log == log0 + calls && c.sent == sent0 + sent
    ensures Talked(calls, sent, line, steps) && AnsweredOnlyWhenAsked(calls, steps, isError, |calls| - 1)
    ensures FlowCaused(batch, calls, steps, isError) && (batch.Some? && batch.value.Output? ==> |calls| == 1 + |steps|)
    ensures c.AlwaysAnswers() ==> batch.Some?
  {
    calls, sent := calls0, sent1;
    var reply := first;
    var transcript := [reply.output];
    for i := 0 to |steps|
      invariant reply.Answer? && |calls| == i + 1 && calls[i].reply == reply
      invariant Talked(calls, sent, line, steps) && AllAnswered(calls) && AnsweredOnlyWhenAsked(calls, steps, isError, i)
      invariant By(c.fate, start, calls) && c.calls == start + |calls| && c.log == log0 + calls && c.sent == sent0 + sent
    {
      batch := Objectionable(reply, steps, i, isError);
      ObjectionCaused(calls, steps, i, isError);
      if batch.Some? {
        return;
      }
      reply, calls, sent := AnswerPrompt(c, line, steps, isError, i, start, log0, sent0, calls, sent);
      if !reply.Answer? {
        return None, calls, sent;
      }
      transcript := transcript + [reply.output];
    }
    batch := Objectionable(reply, steps, |steps|, isError);
    ObjectionCaused(calls, steps, |steps|, isError);
    if batch.None? {
      batch := Some(Output(transcript));
    }
  }

  // ---------------------------------------------------------------- one command

  /** The audit rendering of a command, when its templates can be filled. */
  function RenderedCommandLines(command: Command, names: seq<string>, arguments: Arguments, rules: VendorRules): Option<seq<string>> {
    if command.config.Some? then
      if Fillable(command.config.value, names) then Some(Rendered(Blocks(command.config.value, names), rules)) else None
    else
      var line := ExecLine(command.exec, arguments);
      if line.Some? then Some([line.value]) else None
  }

  predicate Confirmed(command: Command) { command.config.None? && command.confirmation.Some? }

  /** What may go out for a command: its audit rendering, and for a confirmed command its template and then the registered
      answers. */
  function Sendable(command: Command, names: seq<string>, arguments: Arguments, rules: VendorRules): seq<string> {
    if Confirmed(command) then Dialogue(command.exec, command.confirmation.value)
    else
      var lines := RenderedCommandLines(command, names, arguments, rules);
      if lines.Some? then lines.value else []
  }

  /** What a command of one line guarantees; `first` is the fate of its call. */
  ghost predicate ExecOk(batch: Option<Batch>, line: Option<string>, isError: string -> bool, sent: seq<string>,
                         calls: seq<Sending>, first: Fate) {
    && (line.None? ==> batch.None? && calls == [])
    && (line.Some? ==> sent <= [line.value] && (batch.Some? && batch.value.Output? ==> sent == [line.value]))
    && (batch.Some? && batch.value.Failure? ==>
          && !batch.value.result.ok && line.Some? && batch.value.result.report.None?
          && batch.value.result.dispatched == !HasPlaceholder(line.value)
          && if batch.value.result.error == Some(Placeholder) then HasPlaceholder(line.value)
             else batch.value.result.error == Some(DeviceRejected) && |calls| == 1
                  && calls[0].reply.Answer? && isError(calls[0].reply.output))
    && (line.Some? && HasPlaceholder(line.value) ==> batch.Some? && batch.value.Failure? && calls == [])
    && (sent == [] <==> line.None? || HasPlaceholder(line.value) || Silent(first))
  }

  /** The one line of a command; `None` is an exception, of the device or because the template cannot be filled. */
  method RunExec(c: Connection, line: Option<string>, isError: string -> bool)
    returns (batch: Option<Batch>, ghost calls: seq<Sending>, ghost sent: seq<string>)
    modifies c
    ensures c.log == old(c.log) + calls && c.sent == old(c.sent) + sent && Traced(calls, sent)
    ensures By(c.fate, old(c.calls), calls) && ExecOk(batch, line, isError, sent, calls, c.fate(old(c.calls)))
    ensures c.AlwaysAnswers() && line.Some? ==> batch.Some?
  {
    if line.None? {
      return None, [], [];
    }
    if HasPlaceholder(line.value) {
      return Some(Failure(ExecutionResult(false, false, Some(Placeholder), None))), [], [];
    }
    var reply, call := c.Send([line.value]);
    calls, sent := [call], Out(call);
    FirstCallMade(c.fate, old(c.calls), call, line.value);
    if !reply.Answer? {
      return None, calls, sent;
    }
    batch := Some(if isError(reply.output) then Failure(ExecutionResult(false, true, Some(DeviceRejected), None))
                  else Output([reply.output]));
  }

  /** What a session in configuration mode guarantees. `None` for the batch is an exception on leaving the mode. */
  ghost predicate ConfigOk(batch: Option<Batch>, blocks: seq<Block>, rules: VendorRules, sent: seq<string>,
                           calls: seq<Sending>, fate: nat -> Fate, start: nat) {
    && sent <= Rendered(blocks, rules)
    && (|sent| > BeforeCommit(blocks, rules) ==> CommitJustified(calls, blocks, rules))
    && (batch.Some? ==> BatchOk(batch.value, blocks, rules, sent, calls))
    && (sent == [] <==> NothingOut(blocks, rules, fate, start))
  }

  /** Enters configuration mode, runs the batch and leaves the mode. `None` for the batch is an exception: a template cannot
      be filled, or the mode cannot be left. */
  method RunConfigSession(c: Connection, templates: seq<string>, names: seq<string>, rules: VendorRules)
    returns (entered: bool, batch: Option<Batch>)
    requires c.sent == [] && c.log == []
    modifies c
    ensures entered <==> c.fate(old(c.calls)).reply.Answer?
    ensures !entered || !Fillable(templates, names) ==> c.sent == [] && c.log == [] && batch.None?
    ensures Traced(c.log, c.sent) && By(c.fate, old(c.calls) + 1, c.log)
    ensures entered && Fillable(templates, names) ==>
              ConfigOk(batch, Blocks(templates, names), rules, c.sent, c.log, c.fate, old(c.calls) + 1)
    ensures entered && Fillable(templates, names) && c.AlwaysAnswers() ==>
              batch.Some? && (batch.value.Failure? ==> Objection(batch.value.result.error))
  {
    batch := None;
    entered := c.Control();
    if !entered || !Fillable(templates, names) {
      return;
    }
    var b, calls, sent := RunConfigBatch(c, Blocks(templates, names), rules);
    assert c.log == calls && c.sent == sent;
    batch := Some(b);
    if b.Output? {
      var left := c.Control();
      if !left {
        batch := None;
      }
    }
  }

  /** Logged in, privileged where that is asked for, and in configuration mode where the command needs it. */
  predicate Entered(fate: nat -> Fate, calls: nat, connects: bool, needsEnable: bool, command: Command) {
    && connects
    && (needsEnable ==> fate(calls).reply.Answer?)
    && (command.config.Some? ==> fate(if needsEnable then calls + 1 else calls).reply.Answer?)
  }

  /** The number of the first call that can send a line. */
  function FirstCall(calls: nat, needsEnable: bool, command: Command): nat {
    calls + (if needsEnable then 1 else 0) + (if command.config.Some? then 1 else 0)
  }

  /** A command line that still has a placeholder is refused before anything is sent; the code reports it as not dispatched. */
  predicate RefusedLine(command: Command, arguments: Arguments) {
    command.config.None? && command.confirmation.None?
    && var line := ExecLine(command.exec, arguments); line.Some? && HasPlaceholder(line.value)
  }

  /** When a command that was entered puts nothing out; `start` is the number of its first call that can send a line. */
  ghost predicate NothingWentOut(command: Command, names: seq<string>, arguments: Arguments, rules: VendorRules,
                                 fate: nat -> Fate, start: nat) {
    if command.config.Some? then
      !Fillable(command.config.value, names) || NothingOut(Blocks(command.config.value, names), rules, fate, start)
    else if command.confirmation.Some? then Silent(fate(start))
    else ExecLine(command.exec, arguments).None? || Silent(fate(start))
  }

  /** What the part between login and logout guarantees. `None` for the batch is an exception. */
  ghost predicate SessionOk(batch: Option<Batch>, command: Command, names: seq<string>, arguments: Arguments, rules: VendorRules,
                            isError: string -> bool, sent: seq<string>, calls: seq<Sending>, fate: nat -> Fate, start: nat) {
    && sent <= Sendable(command, names, arguments, rules)
    && (batch.Some? && batch.value.Output? ==> sent == Sendable(command, names, arguments, rules))
    && (batch.Some? && batch.value.Failure? ==>
          && !batch.value.result.ok && batch.value.result.dispatched == !RefusedLine(command, arguments)
          && FailureOk(batch.value.result, command, names, arguments, rules, isError, sent, calls))
    && (RefusedLine(command, arguments) ==> batch.Some? && batch.value.Failure?)
    && (sent == [] <==> RefusedLine(command, arguments) || NothingWentOut(command, names, arguments, rules, fate, start))
    && (command.config.Some? && |sent| > BeforeCommit(Blocks(command.config.value, names), rules) ==>
          CommitJustified(calls, Blocks(command.config.value, names), rules))
  }

  ghost predicate FailureOk(result: ExecutionResult, command: Command, names: seq<string>, arguments: Arguments,
                            rules: VendorRules, isError: string -> bool, sent: seq<string>, calls: seq<Sending>) {
    && (command.config.Some? && result.report.Some? ==>
          StoppedAt(result, Blocks(command.config.value, names), rules, sent))
    && (result.error == Some(Placeholder) ==>
          if command.config.Some? then HasPlaceholders(Blocks(command.config.value, names)) else RefusedLine(command, arguments))
    && (result.error == Some(DeviceRejected) ==>
          LastReply(calls, Refused) || (calls != [] && calls[|calls| - 1].reply.Answer? && isError(calls[|calls| - 1].reply.output)))
  }

  lemma {:induction false} ExecIsOk(batch: Option<Batch>, command: Command, names: seq<string>, arguments: Arguments,
                                    rules: VendorRules, isError: string -> bool, sent: seq<string>, calls: seq<Sending>,
                                    fate: nat -> Fate, start: nat)
    requires command.config.None? && command.confirmation.None?
    requires ExecOk(batch, ExecLine(command.exec, arguments), isError, sent, calls, fate(start))
    ensures SessionOk(batch, command, names, arguments, rules, isError, sent, calls, fate, start)
  {
  }

  lemma {:induction false} FlowIsOk(batch: Option<Batch>, command: Command, names: seq<string>, arguments: Arguments,
                                    rules: VendorRules, isError: string -> bool, sent: seq<string>, calls: seq<Sending>,
                                    fate: nat -> Fate, start: nat)
    requires Confirmed(command)
    requires FlowOk(batch, calls, sent, command.exec, command.confirmation.value, isError, fate(start))
    ensures SessionOk(batch, command, names, arguments, rules, isError, sent, calls, fate, start)
  {
  }

  lemma {:induction false} ConfigIsOk(batch: Option<Batch>, command: Command, names: seq<string>, arguments: Arguments,
                                      rules: VendorRules, isError: string -> bool, sent: seq<string>, calls: seq<Sending>,
                                      fate: nat -> Fate, start: nat)
    requires command.config.Some?
    requires if Fillable(command.config.value, names)
             then ConfigOk(batch, Blocks(command.config.value, names), rules, sent, calls, fate, start)
             else batch.None? && sent == [] && calls == []
    ensures SessionOk(batch, command, names, arguments, rules, isError, sent, calls, fate, start)
  {
  }

  /** The part between login and logout, by kind of command. */
  method Dispatch(c: Connection, command: Command, names: seq<string>, arguments: Arguments, rules: VendorRules,
                  isError: string -> bool)
    returns (entered: bool, outcome: Option<Batch>)
    requires c.sent == [] && c.log == []
    modifies c
    ensures entered <==> (command.config.Some? ==> c.fate(old(c.calls)).reply.Answer?)
    ensures !entered ==> c.sent == [] && c.log == []
    ensures Traced(c.log, c.sent) && By(c.fate, FirstCall(old(c.calls), false, command), c.log)
    ensures entered ==>
              SessionOk(outcome, command, names, arguments, rules, isError, c.sent, c.log, c.fate,
                        FirstCall(old(c.calls), false, command))
    ensures entered && c.AlwaysAnswers() && outcome.None? ==>
              RenderedCommandLines(command, names, arguments, rules).None? && !Confirmed(command)
    ensures entered && c.AlwaysAnswers() && outcome.Some? && outcome.value.Failure? ==> Objection(outcome.value.result.error)
  {
    entered := true;
    ghost var calls, sent;
    ghost var start := FirstCall(c.calls, false, command);
    if command.config.Some? {
      entered, outcome := RunConfigSession(c, command.config.value, names, rules);
      if entered {
        ConfigIsOk(outcome, command, names, arguments, rules, isError, c.sent, c.log, c.fate, start);
      }
    } else if command.confirmation.Some? {
      outcome, calls, sent := RunConfirmationFlow(c, command.exec, command.confirmation.value, isError);
      assert c.sent == sent && c.log == calls;
      FlowIsOk(outcome, command, names, arguments, rules, isError, sent, calls, c.fate, start);
    } else {
      outcome, calls, sent := RunExec(c, ExecLine(command.exec, arguments), isError);
      assert c.sent == sent && c.log == calls;
      ExecIsOk(outcome, command, names, arguments, rules, isError, sent, calls, c.fate, start);
    }
  }

  /** What is reported of the part between login and logout. */
  function Reported(outcome: Option<Batch>, verifyManually: bool): ExecutionResult {
    if outcome.None? then ExecutionResult(false, true, Some(Crashed), None)
    else if outcome.value.Failure? then outcome.value.result
    else if verifyManually then ExecutionResult(false, true, Some(Unconfirmed), None)
    else ExecutionResult(true, true, None, None)
  }

  /** What a result says about a command: what it sent, whether that was all, and, reported as dispatched, when it was nothing. */
  ghost predicate ResultOk(result: ExecutionResult, command: Command, names: seq<string>, arguments: Arguments,
                           rules: VendorRules, isError: string -> bool, sent: seq<string>, calls: seq<Sending>,
                           fate: nat -> Fate, start: nat) {
    && sent <= Sendable(command, names, arguments, rules)
    && (result.ok ==> sent == Sendable(command, names, arguments, rules) && result.dispatched && !command.verifyManually)
    && (command.config.Some? && |sent| > BeforeCommit(Blocks(command.config.value, names), rules) ==>
          CommitJustified(calls, Blocks(command.config.value, names), rules))
    && FailureOk(result, command, names, arguments, rules, isError, sent, calls)
    && (!result.dispatched ==> sent == [])
    && (result.dispatched ==> (sent == [] <==> NothingWentOut(command, names, arguments, rules, fate, start)))
  }

  lemma {:induction false} ReportIsOk(outcome: Option<Batch>, command: Command, names: seq<string>, arguments: Arguments,
                                      rules: VendorRules, isError: string -> bool, sent: seq<string>, calls: seq<Sending>,
                                      fate: nat -> Fate, start: nat)
    requires SessionOk(outcome, command, names, arguments, rules, isError, sent, calls, fate, start)
    ensures var result := Reported(outcome, command.verifyManually);
            && ResultOk(result, command, names, arguments, rules, isError, sent, calls, fate, start)
            && result.dispatched == !RefusedLine(command, arguments)
  {
  }

  /** A command that was not entered sends nothing. */
  lemma {:induction false} NotEnteredIsOk(error: ErrorClass, command: Command, names: seq<string>, arguments: Arguments,
                                          rules: VendorRules, isError: string -> bool, fate: nat -> Fate, start: nat)
    requires error == NotConnected || error == EnableFailed || error == ModeFailed
    ensures ResultOk(ExecutionResult(false, false, Some(error), None), command, names, arguments, rules, isError, [], [], fate, start)
  {
  }

  lemma {:induction false} LineOfBlock(blocks: seq<Block>, n: nat, line: string)
    requires n <= |blocks| && line in LinesOf(blocks, n)
    ensures exists k, i | 0 <= k < n && 0 <= i < |blocks[k].lines| :: blocks[k].lines[i] == line
  {
    if line in blocks[n - 1].lines {
      var i :| 0 <= i < |blocks[n - 1].lines| && blocks[n - 1].lines[i] == line;
    } else {
      LineOfBlock(blocks, n - 1, line);
    }
  }

  /** No line that was filled in reaches the device with a placeholder left in it. */
  lemma {:induction false} NoPlaceholderSent(command: Command, names: seq<string>, arguments: Arguments, rules: VendorRules,
                                             sent: seq<string>)
    requires sent <= Sendable(command, names, arguments, rules) && !Confirmed(command)
    requires sent != [] && command.config.Some? ==> !HasPlaceholders(Blocks(command.config.value, names))
    requires sent != [] ==> !RefusedLine(command, arguments)
    ensures forall line :: line in sent ==> line in CheckLines(rules) + rules.commit || ('<' !in line && '>' !in line)
  {
    forall line | line in sent ensures line in CheckLines(rules) + rules.commit || ('<' !in line && '>' !in line) {
      if command.config.Some? {
        var blocks := Blocks(command.config.value, names);
        if line in LinesOf(blocks, |blocks|) {
          LineOfBlock(blocks, |blocks|, line);
        }
      }
    }
  }

  /** One command from login to logout. */
  method RunDeviceCommand(c: Connection, connects: bool, needsEnable: bool, command: Command, names: seq<string>,
                          arguments: Arguments, rules: VendorRules, isError: string -> bool)
    returns (result: ExecutionResult)
    requires c.sent == [] && c.log == []
    modifies c
    ensures result.dispatched <==>
              Entered(c.fate, old(c.calls), connects, needsEnable, command) && !RefusedLine(command, arguments)
    ensures ResultOk(result, command, names, arguments, rules, isError, c.sent, c.log, c.fate,
                     FirstCall(old(c.calls), needsEnable, command))
    ensures Traced(c.log, c.sent) && By(c.fate, FirstCall(old(c.calls), needsEnable, command), c.log)
    ensures connects && c.AlwaysAnswers() && !result.ok ==>
              Objection(result.error) || (RenderedCommandLines(command, names, arguments, rules).None? && !Confirmed(command))
    ensures command.config.Some? || command.confirmation.None? ==>
              forall line :: line in c.sent ==> line in CheckLines(rules) + rules.commit || ('<' !in line && '>' !in line)
  {
    ghost var start := FirstCall(c.calls, needsEnable, command);
    var error := LogIn(c, connects, needsEnable);
    var entered, outcome := false, None;
    if error.None? {
      assert FirstCall(c.calls, false, command) == start;
      entered, outcome := Dispatch(c, command, names, arguments, rules, isError);
      error := if entered then None else Some(ModeFailed);
    }
    assert error.None? <==> Entered(c.fate, old(c.calls), connects, needsEnable, command);
    if error.Some? {
      NotEnteredIsOk(error.value, command, names, arguments, rules, isError, c.fate, start);
      return ExecutionResult(false, false, error, None);
    }
    ReportIsOk(outcome, command, names, arguments, rules, isError, c.sent, c.log, c.fate, start);
    result := Reported(outcome, command.verifyManually);
    if !Confirmed(command) {
      NoPlaceholderSent(command, names, arguments, rules, c.sent);
    }
  }

  /** Connects and, where that is asked for, enters privileged mode. */
  method LogIn(c: Connection, connects: bool, needsEnable: bool) returns (error: Option<ErrorClass>)
    modifies c`calls
    ensures error == if !connects then Some(NotConnected)
                     else if needsEnable && !c.fate(old(c.calls)).reply.Answer? then Some(EnableFailed) else None
    ensures c.calls == old(c.calls) + (if connects && needsEnable then 1 else 0)
  {
    error := None;
    if !connects {
      return Some(NotConnected);
    }
    if needsEnable {
      var enabled := c.Control();
      if !enabled {
        return Some(EnableFailed);
      }
    }
  }

  // ---------------------------------------------------------------- reported as dispatched although nothing went out

  const NO_RULES: VendorRules := VendorRules(None, output => true, [], false, outputs => true)

  /** A configuration template with a placeholder left in it, on a device that answers everything. */
  method PlaceholderIsReportedDispatched() returns (result: ExecutionResult, ghost sent: seq<string>)
    ensures result.dispatched && sent == []
  {
    var templates, names := ["shutdown <now>"], ["eth0"];
    var c := new Connection(k => Fate(Answer(""), 0));
    LeftPlaceholder("shutdown <now>", 9, "eth0");
    result := RunDeviceCommand(c, true, false, Command(Some(templates), "", None, false), names, map[], NO_RULES, output => false);
    sent := c.sent;
  }

  lemma {:induction false} LeftPlaceholder(template: string, i: nat, name: string)
    requires '{' !in template && '}' !in template && i < |template| && template[i] == '<'
    ensures HasPlaceholders(Blocks([template], [name]))
  {
    PlainTemplate(template, map["interface" := name]);
    assert HasPlaceholder(Blocks([template], [name])[0].lines[0]);
  }

  datatype Kind = InConfigMode(refused: bool) | ToConfirm | Plain

  /** The first call after login, or after entering configuration mode, breaks off before any line is out; in configuration
      mode it may also be refused. */
  method SilentCallIsReportedDispatched(kind: Kind) returns (result: ExecutionResult, ghost sent: seq<string>)
    ensures result.dispatched && sent == []
  {
    var command := match kind
      case InConfigMode(_) => Command(Some(["shutdown"]), "", None, false)
      case ToConfirm => Command(None, "reload", Some([]), false)
      case Plain => Command(None, "reload", None, false);
    var entering := if kind.InConfigMode? then 1 else 0;
    var last := Fate(if kind.InConfigMode? && kind.refused then Refused else Broke, 0);
    var c := new Connection(k => if k < entering then Fate(Answer(""), 0) else last);
    result := RunDeviceCommand(c, true, false, command, ["eth0"], map[], NO_RULES, output => false);
    sent := c.sent;
    SilentTransport(c.fate, entering, c.log);
  }
}
