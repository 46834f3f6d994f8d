/** From a tool's result text to an executed call: the envelope, and the assertion that survives it. */
module ToolResults {
  import opened Json
  import opened CommandLine
  import opened ExternalAssertion
  import opened AssertionBinding
  import opened ToolScheduler

  datatype ResultTrust = Structured | Opaque

  datatype Parsed = Parsed(
    success: bool, error: Option<string>, summary: Option<string>, externalAssertion: Option<Record>,
    resultTrust: ResultTrust, strategySucceeded: bool, strategyError: Option<string>)

  function StringField(envelope: Record, key: string): Option<string> {
    match Get(envelope, key)
    case Some(Str(s)) => Some(s)
    case _ => None
  }

  function OpaqueResult(result: string): Parsed {
    Parsed(true, None, Some(result), None, Opaque, false, Some("Tool result was not a structured result envelope."))
  }

  function ParseToolResult(codec: Codec, result: string): Parsed {
    match codec.parse(result)
    case Some(Obj(envelope)) =>
      (match Get(envelope, "success")
       case Some(Bool(success)) =>
         var assertion := Get(envelope, "externalAssertion");
         var verdict := if assertion.None? then No else IsToolExternalAssertion(assertion.value);
         var error := StringField(envelope, "error");
         if verdict == Throws then OpaqueResult(result)
         else Parsed(success, error, StringField(envelope, "summary"),
                     if verdict == Yes then Some(assertion.value.fields) else None,
                     Structured, success,
                     if success then None else if error.Some? then error else Some("Unknown error"))
       case _ => OpaqueResult(result))
    case _ => OpaqueResult(result)
  }

  /** What a prepared call invokes. */
  function InvocationOf(c: PreparedCall): Invocation {
    Classify(c.name, match Get(c.args, "command") case Some(Str(s)) => Some(s) case _ => None)
  }

  /** An executed call keeps an assertion only when it matches the call. */
  function ParseExecution(codec: Codec, c: PreparedCall, result: string, now: real): Parsed {
    var parsed := ParseToolResult(codec, result);
    if parsed.externalAssertion.Some?
       && MatchesInvocation(parsed.externalAssertion.value, InvocationOf(c), parsed.success, false, now)
    then parsed
    else parsed.(externalAssertion := None)
  }

  /** What has to hold of an assertion that survived into an executed call. */
  ghost predicate Trustworthy(p: Parsed, c: PreparedCall, r: Record, now: real) {
    && p.resultTrust == Structured && IsToolExternalAssertion(Obj(r)) == Yes && Fresh(r, now)
    && (Says(r, "status", "passed") ==> p.success && !InvocationOf(c).PrMerge? && !InvocationOf(c).ReleaseCreate?)
    && (!p.success ==> Says(r, "status", "failed"))
  }

  lemma StatusIsOneWord(r: Record)
    ensures !(Says(r, "status", "passed") && Says(r, "status", "failed"))
  {
    assert "passed"[0] != "failed"[0];
  }

  lemma ParsedAssertionIsValid(codec: Codec, result: string)
    ensures var p := ParseToolResult(codec, result);
            p.externalAssertion.Some? ==>
              p.resultTrust == Structured && IsToolExternalAssertion(Obj(p.externalAssertion.value)) == Yes
  {
  }

  /** What a surviving assertion has passed. */
  lemma Survivor(codec: Codec, c: PreparedCall, result: string, now: real)
    ensures var p := ParseExecution(codec, c, result, now);
            p.externalAssertion.Some? ==>
              && p.resultTrust == Structured && IsToolExternalAssertion(Obj(p.externalAssertion.value)) == Yes
              && MatchesInvocation(p.externalAssertion.value, InvocationOf(c), p.success, false, now)
  {
    ParsedAssertionIsValid(codec, result);
  }

  lemma MatchedStatus(r: Record, inv: Invocation, success: bool, now: real)
    requires MatchesInvocation(r, inv, success, false, now)
    ensures Fresh(r, now) && (!success ==> Says(r, "status", "failed"))
    ensures Says(r, "status", "passed") ==> success && !inv.PrMerge? && !inv.ReleaseCreate?
  {
    StatusIsOneWord(r);
  }

  /** Whatever the result text is, a surviving assertion is valid, fresh and no better than the envelope. */
  lemma {:induction false} SurvivorsAreTrustworthy(codec: Codec, c: PreparedCall, result: string, now: real)
    ensures var p := ParseExecution(codec, c, result, now);
            p.externalAssertion.Some? ==> Trustworthy(p, c, p.externalAssertion.value, now)
  {
    var p := ParseExecution(codec, c, result, now);
    Survivor(codec, c, result, now);
    if p.externalAssertion.Some? {
      MatchedStatus(p.externalAssertion.value, InvocationOf(c), p.success, now);
    }
  }

  lemma BoundPackagesAreTyped(r: Record, inv: Invocation, success: bool, now: real)
    requires MatchesInvocation(r, inv, success, false, now) && (inv.GitPush? || inv.Publish? || inv.View?)
    ensures WordsAreStrings(r)
  {
  }

  lemma PassedPrIsTyped(r: Record)
    requires DetailsAreConsistent(r) && Says(r, "status", "passed") && Says(DetailsOf(r), "kind", "github_pr")
    ensures WordsAreStrings(r)
  {
  }

  lemma UnrecognizedMatchesNothing(r: Record, inv: Invocation, success: bool, now: real)
    requires MatchesInvocation(r, inv, success, false, now)
    ensures !inv.Unrecognized?
  {
  }

  lemma {:induction false} PassedWordsAreStrings(r: Record, inv: Invocation, success: bool, now: real)
    requires MatchesInvocation(r, inv, success, false, now) && Says(r, "status", "passed")
    requires IsToolExternalAssertion(Obj(r)) == Yes
    ensures WordsAreStrings(r)
  {
    MatchedStatus(r, inv, success, now);
    UnrecognizedMatchesNothing(r, inv, success, now);
    if inv.GitPush? || inv.Publish? || inv.View? {
      BoundPackagesAreTyped(r, inv, success, now);
    } else if inv.PrCreate? || inv.PrView? {
      BoundPrIsPr(r, inv, success, now);
      PassedPrIsTyped(r);
    } else {
      BoundReleaseHasNoWord(r, inv, success, now);
    }
  }

  lemma BoundPrIsPr(r: Record, inv: Invocation, success: bool, now: real)
    requires MatchesInvocation(r, inv, success, false, now) && (inv.PrCreate? || inv.PrMerge? || inv.PrView?)
    ensures Says(DetailsOf(r), "kind", "github_pr")
  {
  }

  lemma BoundReleaseHasNoWord(r: Record, inv: Invocation, success: bool, now: real)
    requires MatchesInvocation(r, inv, success, false, now) && (inv.ReleaseCreate? || inv.ReleaseView?)
    ensures WordsAreStrings(r)
  {
    assert "github_release"[7] != "github_pr"[7];
  }

  lemma TypedHeader(r: Record, now: real)
    requires Read(r).Some? && Fresh(r, now) && Says(r, "status", "passed")
    ensures var a := Read(r).value;
            a.status == Passed && a.observedAt <= now && now - a.observedAt < MAX_TRANSPORT_AGE
  {
  }

  /**
   A surviving passed assertion is a well-formed typed assertion that passed, observed within the last
   five minutes, in a structured and successful envelope, for a command whose success proves anything.
   */
  lemma {:induction false} PassedSurvivorsAreWellFormed(codec: Codec, c: PreparedCall, result: string, now: real)
    ensures var p := ParseExecution(codec, c, result, now);
            p.externalAssertion.Some? && Says(p.externalAssertion.value, "status", "passed") ==>
              && p.resultTrust == Structured && p.success
              && !InvocationOf(c).PrMerge? && !InvocationOf(c).ReleaseCreate? && !InvocationOf(c).Unrecognized?
              && Read(p.externalAssertion.value).Some?
              && var a := Read(p.externalAssertion.value).value;
                 WellFormed(a) && a.status == Passed && a.observedAt <= now && now - a.observedAt < MAX_TRANSPORT_AGE
  {
    var p := ParseExecution(codec, c, result, now);
    Survivor(codec, c, result, now);
    if p.externalAssertion.Some? && Says(p.externalAssertion.value, "status", "passed") {
      var r, inv := p.externalAssertion.value, InvocationOf(c);
      MatchedStatus(r, inv, p.success, now);
      UnrecognizedMatchesNothing(r, inv, p.success, now);
      PassedWordsAreStrings(r, inv, p.success, now);
      ValidatorIsExact(r);
      TypedHeader(r, now);
    }
  }

  lemma {:induction false} OnlyPrWordsVary(r: Record, inv: Invocation, success: bool, now: real)
    requires MatchesInvocation(r, inv, success, false, now) && !WordsAreStrings(r)
    ensures Says(DetailsOf(r), "kind", "github_pr")
  {
    UnrecognizedMatchesNothing(r, inv, success, now);
    if inv.GitPush? || inv.Publish? || inv.View? {
      BoundPackagesAreTyped(r, inv, success, now);
    } else if inv.ReleaseCreate? || inv.ReleaseView? {
      BoundReleaseHasNoWord(r, inv, success, now);
    } else {
      BoundPrIsPr(r, inv, success, now);
    }
  }

  /**
   Other survivors are well formed exactly when the word-valued field is a string, which only a
   pull-request state that is an array can violate.
   */
  lemma {:induction false} SurvivorsAreWellFormed(codec: Codec, c: PreparedCall, result: string, now: real)
    ensures var p := ParseExecution(codec, c, result, now);
            p.externalAssertion.Some? ==>
              var r := p.externalAssertion.value;
              && (WordsAreStrings(r) <==> Read(r).Some?)
              && (Read(r).Some? ==> WellFormed(Read(r).value))
              && (!WordsAreStrings(r) ==> Says(DetailsOf(r), "kind", "github_pr") && !Says(r, "status", "passed"))
  {
    var p := ParseExecution(codec, c, result, now);
    Survivor(codec, c, result, now);
    if p.externalAssertion.Some? {
      var r := p.externalAssertion.value;
      ValidatorIsExact(r);
      if Read(r).Some? {
        TypedWordsAreStrings(r);
      }
      if !WordsAreStrings(r) {
        OnlyPrWordsVary(r, InvocationOf(c), p.success, now);
        if Says(r, "status", "passed") {
          PassedWordsAreStrings(r, InvocationOf(c), p.success, now);
        }
      }
    }
  }

  /** The envelope of a command's result, with the derived assertion in it. */
  function Envelope(o: Output, a: Assertion): Json {
    Obj(map["success" := Bool(o.success), "externalAssertion" := Obj(Write(a))])
  }

  lemma {:induction false} CarriedEnvelope(o: Output, a: Assertion)
    ensures Carried(Envelope(o, a)).Obj?
    ensures var carried := Carried(Envelope(o, a)).fields;
          && Get(carried, "success") == Some(Bool(o.success))
            && Get(carried, "externalAssertion") == Some(Carried(Obj(Write(a))))
  {
    var fields := Envelope(o, a).fields;
    var carried := Carried(Obj(fields)).fields;
    assert carried["success"] == Carried(fields["success"]);
    assert carried["externalAssertion"] == Carried(fields["externalAssertion"]);
  }

  lemma EnvelopeFields(codec: Codec, text: string, success: bool, assertion: Record)
    requires codec.parse(text).Some? && codec.parse(text).value.Obj?
    requires Get(codec.parse(text).value.fields, "success") == Some(Bool(success))
    requires Get(codec.parse(text).value.fields, "externalAssertion") == Some(Obj(assertion))
    ensures var p := ParseToolResult(codec, text);
          && (p.externalAssertion
                == if IsToolExternalAssertion(Obj(assertion)) == Yes then Some(assertion) else None)
            && (p.externalAssertion.Some? ==> p.success == success)
  {
  }

  /** The assertion comes out of the envelope exactly when it is well formed. */
  lemma {:induction false} EnvelopeIsParsed(codec: Codec, o: Output, a: Assertion)
    requires Transports(codec, Envelope(o, a))
    ensures var p := ParseToolResult(codec, codec.stringify(Envelope(o, a)));
          && (p.externalAssertion == Some(Write(a)) <==> WellFormed(a))
            && (p.externalAssertion.Some? ==> p.externalAssertion.value == Write(a) && p.success == o.success)
  {
    var arrived := Carried(Obj(Write(a))).fields;
    CarriedEnvelope(o, a);
    EnvelopeFields(codec, codec.stringify(Envelope(o, a)), o.success, arrived);
    if CanTravel(a) {
      WriteIsFinite(a);
      ArrivesUnchanged(Obj(Write(a)));
      WrittenWordsAreStrings(a);
      ValidatorIsExact(Write(a));
      ReadUndoesWrite(a);
    } else {
      LostNumberArrivesAsZero(a);
      LostNumberKeepsWords(a);
      ValidatorIsExact(arrived);
    }
  }

  lemma {:induction false} LostNumberKeepsWords(a: Assertion)
    requires !CanTravel(a)
    ensures WordsAreStrings(Carried(Obj(Write(a))).fields)
  {
    var details := WriteDetails(a.details.value);
    var carried := Carried(Obj(details)).fields;
    PrRecord(a.details.value);
    assert carried["kind"] == Carried(details["kind"]);
    assert "state" in details ==> carried["state"] == Carried(details["state"]);
    ReadHeaderUndoesWrite(a);
    assert Carried(Obj(Write(a))).fields["details"] == Carried(Write(a)["details"]) == Obj(carried);
  }

  lemma WrittenWordsAreStrings(a: Assertion)
    ensures WordsAreStrings(Write(a))
  {
    ReadHeaderUndoesWrite(a);
    match a.details
    case None => assert DetailsOf(Write(a)) == map[];
    case Some(Npm(n, v, f)) => NpmRecord(a.details.value);
    case Some(GithubPr(_, _, _)) => PrRecord(a.details.value);
    case Some(GithubRelease(_, _, _, _)) => ReleaseRecord(a.details.value);
    case Some(Push(_, _, _)) => PushRecord(a.details.value);
  }

  /**
   End to end: a passed assertion derived for a command, written into the result envelope and parsed
   again for the same call within five minutes, survives exactly when its captures are within the
   validator's limits and the identity in the output agrees with the command line.
   */
  lemma {:induction false} DerivedAssertionSurvives(codec: Codec, c: PreparedCall, o: Output, t: real, now: real)
    requires t >= 0.0 && PassedJustNow(InvocationOf(c), o, t, now)
    requires Transports(codec, Envelope(o, Derive(InvocationOf(c), o, t).value))
    ensures var inv := InvocationOf(c);
            var a := Derive(inv, o, t).value;
            var p := ParseExecution(codec, c, codec.stringify(Envelope(o, a)), now);
            p.externalAssertion == Some(Write(a)) <==> CapturesWithinLimits(inv, o) && IdentityAgrees(inv, o)
  {
    var inv := InvocationOf(c);
    var a := Derive(inv, o, t).value;
    EnvelopeIsParsed(codec, o, a);
    DerivedIsWellFormed(inv, o, t);
    PassedIsBound(inv, o, t, now);
  }

  // ----- Failures -------------------------------------------------------------------------------

  /** The parsed result says that the call failed, and why, and nothing else. */
  predicate SaysFailed(p: Parsed, message: string) {
    p == Parsed(false, Some(message), None, None, Structured, false, Some(message))
  }

  lemma {:induction false} FailedEnvelopeTravels(message: string)
    ensures NumberFree(FailedEnvelope(message)) && Carried(FailedEnvelope(message)) == FailedEnvelope(message)
  {
    var fields := FailedEnvelope(message).fields;
    assert forall k :: k in fields ==> Carried(fields[k]) == fields[k];
    assert Carried(Obj(fields)).fields == fields;
  }

  lemma FailedEnvelopeIsParsed(codec: Codec, text: string, message: string)
    requires codec.parse(text) == Some(FailedEnvelope(message))
    ensures SaysFailed(ParseToolResult(codec, text), message)
  {
    var fields := FailedEnvelope(message).fields;
    assert Get(fields, "success") == Some(Bool(false)) && Get(fields, "error") == Some(Str(message));
    assert Get(fields, "summary").None? && Get(fields, "externalAssertion").None?;
  }

  lemma {:induction false} FailedEnvelopeIsRead(codec: Codec, c: PreparedCall, message: string, now: real)
    requires IsFaithful(codec)
    ensures SaysFailed(ParseExecution(codec, c, codec.stringify(FailedEnvelope(message)), now), message)
  {
    FailedEnvelopeTravels(message);
    FaithfulCarries(codec, FailedEnvelope(message));
    FailedEnvelopeIsParsed(codec, codec.stringify(FailedEnvelope(message)), message);
  }

  /** Why a call fails without a result of its own: bad arguments, a block without wording, or a rejection. */
  function Complaint(x: Executor, c: PreparedCall, outcome: Outcome): Option<string> {
    if outcome.Rejected? then Some("Tool execution error: " + outcome.reason)
    else if c.argumentError.Some? && c.argumentError.value != "" then c.argumentError
    else if c.drift.Some? && c.drift.value.status == Block && x.blockedResult.None? then
      Some(BlockReason(c.drift.value))
    else None
  }

  /**
   Whatever the interleaving, a call with bad arguments, a blocked call and a call that the executor
   rejects are each yielded in their place as a structured failure with the message.
   */
  lemma {:induction false} FailuresAreReported(x: Executor, calls: seq<PreparedCall>, maxParallel: Option<int>,
                                               w: World, run: seq<State>, i: nat, now: real)
    requires IsFaithful(x.codec) && Assumed(x, calls) && IsRun(x, calls, Limit(maxParallel), w, run)
    requires i < |run[|run| - 1].yielded|
    ensures i < |calls|
    ensures var executed, outcome := run[|run| - 1].yielded[i], Alone(x, calls[i], WorldAfter(x, calls, w, i)).0;
          && executed.prepared == calls[i]
            && (Complaint(x, calls[i], outcome).Some? ==>
                  SaysFailed(ParseExecution(x.codec, calls[i], executed.result, now),
                             Complaint(x, calls[i], outcome).value))
  {
    InterleavingIsSequential(x, calls, maxParallel, w, run);
    var outcome := Alone(x, calls[i], WorldAfter(x, calls, w, i)).0;
    assert run[|run| - 1].yielded[i] == ResultOf(x, calls, w, i) == Report(x, calls[i], outcome);
    if Complaint(x, calls[i], outcome).Some? {
      FailedEnvelopeIsRead(x.codec, calls[i], Complaint(x, calls[i], outcome).value, now);
    }
  }
}
