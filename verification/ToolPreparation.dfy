/** Parsing and validating the model's tool calls before any of them runs. */
module ToolPreparation {
  import opened Json
  import opened ToolScheduler

  /** A tool call of the model's message; preparing it rewrites its arguments in place. */
  class ToolCallRecord {
    const name: string
    var arguments: string

    constructor (name: string, arguments: string)
      ensures this.name == name && this.arguments == arguments
    {
      this.name, this.arguments := name, arguments;
    }
  }

  /** A tool without the optional checks validates everything and is not concurrency-safe. */
  datatype Tool = Tool(name: string, validateInput: Record -> Option<string>, isConcurrencySafe: Record -> bool)

  /** The optional callbacks: the id of a new attempt at a position, and the drift check. */
  datatype Options = Options(
    codec: Codec, tools: seq<Tool>, attempt: nat -> string, invalidAttempt: nat -> string,
    driftCheck: (string, Record) -> Option<Drift>)

  datatype Arguments = Parsed(args: Record) | Malformed(error: string)

  function FindTool(tools: seq<Tool>, name: string): Option<Tool> {
    if tools == [] then None
    else if tools[0].name == name then Some(tools[0])
    else FindTool(tools[1..], name)
  }

  function ParseArguments(codec: Codec, name: string, raw: string): Arguments {
    if raw == "" then Parsed(map[])
    else
      match codec.parse(raw)
      case None => Malformed("Tool " + name + " arguments are not valid JSON.")
      case Some(Obj(args)) => Parsed(args)
      case Some(_) => Malformed("Tool " + name + " arguments must be a JSON object.")
  }

  /** The arguments as they are written back. */
  function Normalized(codec: Codec, name: string, raw: string): string {
    match ParseArguments(codec, name, raw)
    case Parsed(args) => codec.stringify(Obj(args))
    case Malformed(_) => raw
  }

  function InputError(tool: Option<Tool>, args: Record): Option<string> {
    if tool.None? then None else tool.value.validateInput(args)
  }

  function Prepared(opts: Options, index: nat, name: string, raw: string): PreparedCall {
    var tool := FindTool(opts.tools, name);
    match ParseArguments(opts.codec, name, raw)
    case Malformed(error) =>
      PreparedCall(index, name, map[], opts.invalidAttempt(index), Some(error), None, false)
    case Parsed(args) =>
      var error := InputError(tool, args);
      if error.Some? && error.value != "" then
        PreparedCall(index, name, args, opts.invalidAttempt(index), error, None, false)
      else
        var drift := opts.driftCheck(name, args);
        PreparedCall(index, name, args, opts.attempt(index), None, drift,
                     (drift.Some? ==> drift.value.status != Block) && tool.Some? && tool.value.isConcurrencySafe(args))
  }

  /** The arguments, if there are any, hold no number that JSON text cannot carry. */
  predicate CanTravel(codec: Codec, name: string, raw: string) {
    match ParseArguments(codec, name, raw)
    case Parsed(args) => AllCarried(Obj(args))
    case Malformed(_) => true
  }

  /** What rewritten arguments parse to. */
  lemma {:induction false} NormalizedArguments(codec: Codec, name: string, raw: string)
    requires IsFaithful(codec)
    ensures ParseArguments(codec, name, Normalized(codec, name, raw))
         == match ParseArguments(codec, name, raw)
            case Parsed(args) => Parsed(Carried(Obj(args)).fields)
            case Malformed(error) => Malformed(error)
    ensures Normalized(codec, name, Normalized(codec, name, raw)) == Normalized(codec, name, raw)
  {
    if ParseArguments(codec, name, raw).Parsed? {
      var args := Obj(ParseArguments(codec, name, raw).args);
      if raw == "" {
        assert NumberFree(args) && args == Obj(map[]) && Carried(args) == args;
      } else {
        assert codec.parse(raw) == Some(args);
      }
      assert Transports(codec, args) && codec.stringify(Carried(args)) == codec.stringify(args);
    }
  }

  /**
   Writing the arguments back changes neither the prepared call nor, a second time, the arguments,
   exactly when they hold no number that JSON text cannot carry: a number beyond the double range is
   written as null, and a negative zero as 0.
   */
  lemma {:induction false} NormalizingIsStable(opts: Options, index: nat, name: string, raw: string)
    requires IsFaithful(opts.codec)
    ensures Prepared(opts, index, name, Normalized(opts.codec, name, raw)) == Prepared(opts, index, name, raw)
       <==> CanTravel(opts.codec, name, raw)
    ensures Normalized(opts.codec, name, Normalized(opts.codec, name, raw)) == Normalized(opts.codec, name, raw)
  {
    NormalizedArguments(opts.codec, name, raw);
    var parsed := ParseArguments(opts.codec, name, raw);
    if parsed.Parsed? {
      ArrivesUnchanged(Obj(parsed.args));
      assert Prepared(opts, index, name, raw).args == parsed.args;
    }
  }

  /** The number 1e999 as an argument: it parses to an infinity, and preparing again gives null. */
  lemma {:induction false} InfinityIsNotStable(opts: Options, index: nat, name: string, raw: string)
    requires IsFaithful(opts.codec) && opts.codec.parse(raw) == Some(Obj(map["x" := Infinite(false)]))
    ensures Prepared(opts, index, name, raw).args == map["x" := Infinite(false)]
    ensures Prepared(opts, index, name, Normalized(opts.codec, name, raw)).args == map["x" := Null]
  {
    NormalizedArguments(opts.codec, name, raw);
    assert Carried(Obj(map["x" := Infinite(false)])).fields == map["x" := Null];
  }

  /** The same with a negative zero, which loses its sign. */
  lemma {:induction false} MinusZeroIsNotStable(opts: Options, index: nat, name: string, raw: string)
    requires IsFaithful(opts.codec) && opts.codec.parse(raw) == Some(Obj(map["x" := MinusZero]))
    ensures Prepared(opts, index, name, raw).args == map["x" := MinusZero]
    ensures Prepared(opts, index, name, Normalized(opts.codec, name, raw)).args == map["x" := Number(0.0)]
  {
    NormalizedArguments(opts.codec, name, raw);
    assert Carried(Obj(map["x" := MinusZero])).fields == map["x" := Number(0.0)];
  }

  /** A record's arguments as a call finds them: rewritten if the record was listed before. */
  function Found(codec: Codec, name: string, raw: string, again: bool): string {
    if again then Normalized(codec, name, raw) else raw
  }

  /** The call prepared from what it finds: its own original unless that was rewritten with a loss. */
  predicate PreparedFrom(opts: Options, index: nat, name: string, raw: string, again: bool, call: PreparedCall) {
    && call == Prepared(opts, index, name, Found(opts.codec, name, raw, again))
    && (call == Prepared(opts, index, name, raw) <==> (again ==> CanTravel(opts.codec, name, raw)))
  }

  lemma {:induction false} PreparedFromOwn(opts: Options, index: nat, name: string, raw: string, again: bool)
    requires IsFaithful(opts.codec)
    ensures PreparedFrom(opts, index, name, raw, again,
                         Prepared(opts, index, name, Found(opts.codec, name, raw, again)))
    ensures Normalized(opts.codec, name, Found(opts.codec, name, raw, again)) == Normalized(opts.codec, name, raw)
  {
    NormalizingIsStable(opts, index, name, raw);
  }

  /**
   Every record ends up with its normalized arguments. A call is prepared from its record's own
   original arguments, as if no other call had been, exactly when it is the first of its record or the
   arguments hold no number that JSON text cannot carry.
   */
  method PrepareToolCalls(opts: Options, toolCalls: seq<ToolCallRecord>) returns (prepared: seq<PreparedCall>)
    requires IsFaithful(opts.codec)
    modifies toolCalls
    ensures AllPreparedFrom(opts, toolCalls, old(ArgumentsOf(toolCalls)), prepared)
    ensures forall i :: 0 <= i < |toolCalls| ==>
              toolCalls[i].arguments == Normalized(opts.codec, toolCalls[i].name, old(ArgumentsOf(toolCalls))[i])
  {
    prepared := [];
    ghost var raws := ArgumentsOf(toolCalls);
    for index := 0 to |toolCalls|
      invariant prepared == PreparedUpTo(opts, toolCalls, raws, index)
      invariant Rewritten(opts.codec, toolCalls, raws, index)
    {
      var call := PrepareNext(opts, toolCalls, raws, index);
      prepared := prepared + [call];
    }
    assert toolCalls[..|toolCalls|] == toolCalls;
    AllPrepared(opts, toolCalls, raws);
  }

  ghost predicate AllPreparedFrom(opts: Options, toolCalls: seq<ToolCallRecord>, raws: seq<string>,
                                  prepared: seq<PreparedCall>) {
    && |prepared| == |toolCalls| == |raws|
    && forall i :: 0 <= i < |toolCalls| ==>
         PreparedFrom(opts, i, toolCalls[i].name, raws[i], toolCalls[i] in toolCalls[..i], prepared[i])
  }

  /** The first `n` calls, each prepared from the arguments it finds. */
  ghost function PreparedUpTo(opts: Options, toolCalls: seq<ToolCallRecord>, raws: seq<string>,
                              n: nat): (r: seq<PreparedCall>)
    requires n <= |toolCalls| == |raws|
    ensures |r| == n
  {
    if n == 0 then []
    else
      var i := n - 1;
      PreparedUpTo(opts, toolCalls, raws, i)
      + [Prepared(opts, i, toolCalls[i].name,
                  Found(opts.codec, toolCalls[i].name, raws[i], toolCalls[i] in toolCalls[..i]))]
  }

  lemma {:induction false} PreparedAt(opts: Options, toolCalls: seq<ToolCallRecord>, raws: seq<string>, i: nat, n: nat)
    requires i < n <= |toolCalls| == |raws|
    ensures PreparedUpTo(opts, toolCalls, raws, n)[i]
         == Prepared(opts, i, toolCalls[i].name,
                     Found(opts.codec, toolCalls[i].name, raws[i], toolCalls[i] in toolCalls[..i]))
  {
    if i < n - 1 {
      PreparedAt(opts, toolCalls, raws, i, n - 1);
    }
  }

  lemma {:induction false} AllPrepared(opts: Options, toolCalls: seq<ToolCallRecord>, raws: seq<string>)
    requires IsFaithful(opts.codec) && |toolCalls| == |raws|
    ensures AllPreparedFrom(opts, toolCalls, raws, PreparedUpTo(opts, toolCalls, raws, |toolCalls|))
  {
    forall i | 0 <= i < |toolCalls|
      ensures PreparedFrom(opts, i, toolCalls[i].name, raws[i], toolCalls[i] in toolCalls[..i],
                           PreparedUpTo(opts, toolCalls, raws, |toolCalls|)[i])
    {
      PreparedAt(opts, toolCalls, raws, i, |toolCalls|);
      PreparedFromOwn(opts, i, toolCalls[i].name, raws[i], toolCalls[i] in toolCalls[..i]);
    }
  }

  ghost function ArgumentsOf(toolCalls: seq<ToolCallRecord>): (raws: seq<string>)
    reads toolCalls
    ensures |raws| == |toolCalls| && forall i :: 0 <= i < |raws| ==> raws[i] == toolCalls[i].arguments
  {
    seq(|toolCalls|, i requires 0 <= i < |toolCalls| reads toolCalls => toolCalls[i].arguments)
  }

  /** The records of the first `n` calls, and no others, have been rewritten. */
  ghost predicate Rewritten(codec: Codec, toolCalls: seq<ToolCallRecord>, raws: seq<string>, n: nat)
    requires |raws| == |toolCalls| && n <= |toolCalls|
    reads toolCalls
  {
    forall i :: 0 <= i < |toolCalls| ==>
      toolCalls[i].arguments == Found(codec, toolCalls[i].name, raws[i], toolCalls[i] in toolCalls[..n])
  }

  /** Prepares the call at `index`. */
  method PrepareNext(opts: Options, toolCalls: seq<ToolCallRecord>, ghost raws: seq<string>, index: nat)
    returns (call: PreparedCall)
    requires IsFaithful(opts.codec) && index < |toolCalls| == |raws|
    requires Rewritten(opts.codec, toolCalls, raws, index)
    requires forall i, j :: 0 <= i < j < |toolCalls| && toolCalls[i] == toolCalls[j] ==> raws[i] == raws[j]
    modifies toolCalls[index]
    ensures Rewritten(opts.codec, toolCalls, raws, index + 1)
    ensures PreparedUpTo(opts, toolCalls, raws, index + 1) == PreparedUpTo(opts, toolCalls, raws, index) + [call]
  {
    var tc := toolCalls[index];
    assert toolCalls[..index + 1] == toolCalls[..index] + [tc];
    PreparedFromOwn(opts, index, tc.name, raws[index], tc in toolCalls[..index]);
    call := PrepareOne(opts, index, tc);
  }

  /** Prepares one call and writes its arguments back. */
  method PrepareOne(opts: Options, index: nat, tc: ToolCallRecord) returns (call: PreparedCall)
    modifies tc
    ensures call == Prepared(opts, index, tc.name, old(tc.arguments))
    ensures tc.arguments == Normalized(opts.codec, tc.name, old(tc.arguments))
  {
    var tool := FindTool(opts.tools, tc.name);
    var parsed := ParseArguments(opts.codec, tc.name, tc.arguments);
    if parsed.Malformed? {
      return PreparedCall(index, tc.name, map[], opts.invalidAttempt(index), Some(parsed.error), None, false);
    }
    var args := parsed.args;
    tc.arguments := opts.codec.stringify(Obj(args));
    var inputError := InputError(tool, args);
    if inputError.Some? && inputError.value != "" {
      return PreparedCall(index, tc.name, args, opts.invalidAttempt(index), inputError, None, false);
    }
    var drift := opts.driftCheck(tc.name, args);
    call := PreparedCall(index, tc.name, args, opts.attempt(index), None, drift,
                         (drift.Some? ==> drift.value.status != Block) && tool.Some?
                         && tool.value.isConcurrencySafe(args));
  }

  /**
   Prepared calls are what the scheduler assumes: numbered by position, and a call that the gate
   stops is never concurrency-safe, so it runs alone.
   */
  lemma {:induction false} PreparedCallsAreOrderly(opts: Options, x: Executor, names: seq<string>, raws: seq<string>,
                                                   calls: seq<PreparedCall>)
    requires |names| == |raws| == |calls|
    requires forall i :: 0 <= i < |calls| ==> calls[i] == Prepared(opts, i, names[i], raws[i])
    ensures Numbered(calls)
    ensures forall i :: 0 <= i < |calls| && Gate(x, calls[i]).Some? ==> !calls[i].canRunConcurrently
  {
  }
}
