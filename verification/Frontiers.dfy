/** One request's token frontier through chunked prefill, decode and preemption. */
module Frontiers {
  import opened PrefixKeys
  import opened PlacementSpec

  datatype Policy = Policy(maxRequests: nat, maxTokens: nat, chunkTokens: nat)
  {
    ghost predicate Valid()
    {
      maxRequests > 0 && maxTokens > 0 && chunkTokens > 0
    }
  }

  datatype RequestState = RequestState(
    request: Request, admitted: bool, processed: nat, emitted: nat, prefillTarget: nat, complete: bool)
  {
    predicate Decoding()
    {
      processed >= prefillTarget
    }

    /** The intended frontier: a prefill is to end behind all tokens emitted so far; a decode
        step processes the token emitted last. */
    ghost predicate OnFrontier()
    {
      if Decoding() then emitted > 0 && processed == request.promptTokens + emitted - 1
      else prefillTarget == request.promptTokens + emitted
    }

    /** What holds whatever is preempted: a prefill ends behind the prompt, and never beyond the
        tokens known so far. */
    ghost predicate Bounded()
    {
      && request.Valid() && emitted < request.outputTokens
      && request.promptTokens <= prefillTarget <= request.promptTokens + emitted
      && processed < request.promptTokens + emitted
    }
  }

  /** A scheduled contribution; the placement plane sees only its token range. */
  datatype BatchSlice = BatchSlice(request: nat, begin: nat, count: nat, emits: bool, decode: bool)
  {
    function End(): nat
    {
      begin + count
    }

    function Plain(): Slice
    {
      Slice(request, begin, count)
    }
  }

  function Fresh(request: Request): RequestState
  {
    RequestState(request, false, 0, 0, request.promptTokens, false)
  }

  /** The next slice of a request, or None where the scheduler finds its decode frontier broken. */
  function SliceOf(st: RequestState, budget: nat, policy: Policy): (slice: Option<BatchSlice>)
  {
    if st.Decoding() then
      if st.processed != st.request.promptTokens + st.emitted - 1 then None
      else Some(BatchSlice(st.request.id, st.processed, 1, true, true))
    else
      var count := Min(Min(st.prefillTarget - st.processed, policy.chunkTokens), budget);
      var end := st.processed + count;
      Some(BatchSlice(st.request.id, st.processed, count,
                      end == st.prefillTarget && end >= st.request.promptTokens, false))
  }

  /** What the compiler demands of a slice of a request. */
  ghost predicate Compilable(slice: BatchSlice, request: Request)
  {
    && slice.request == request.id && slice.count > 0 && slice.End() <= request.Lifetime()
    && (slice.decode ==> slice.count == 1 && slice.emits && slice.begin >= request.promptTokens)
    && (!slice.decode && slice.emits ==> slice.End() >= request.promptTokens)
  }

  /** A slice is compilable and stays inside budget and chunk; the decode check is the only
      one that can fail, and it fails exactly off the frontier. */
  lemma SliceFits(st: RequestState, budget: nat, policy: Policy)
    requires policy.Valid() && budget > 0 && st.Bounded()
    ensures SliceOf(st, budget, policy).None? <==> st.Decoding() && !st.OnFrontier()
    ensures SliceOf(st, budget, policy).Some? ==>
      var slice := SliceOf(st, budget, policy).value;
      && Compilable(slice, st.request) && slice.begin == st.processed && slice.count <= budget
      && (!slice.decode ==> slice.count <= policy.chunkTokens)
  {
  }

  /** Completion of a slice: None where the engine raises. */
  function Advance(st: RequestState, slice: BatchSlice): (next: Option<RequestState>)
  {
    if st.processed != slice.begin then None
    else
      var moved := st.(processed := slice.End());
      if !slice.emits then Some(moved)
      else
        var emitted := moved.(emitted := st.emitted + 1);
        if emitted.emitted > st.request.outputTokens then None
        else if emitted.emitted < st.request.outputTokens then Some(emitted)
        else if emitted.processed != st.request.Lifetime() then None
        else Some(emitted.(complete := true))
  }

  /** On the frontier no check fires, the frontier is kept, and the request completes exactly
      when it has emitted all its output, having processed its whole lifetime. */
  lemma AdvanceKeeps(st: RequestState, budget: nat, policy: Policy)
    requires policy.Valid() && budget > 0 && st.Bounded() && st.OnFrontier() && !st.complete
    ensures SliceOf(st, budget, policy).Some? && Advance(st, SliceOf(st, budget, policy).value).Some?
    ensures var slice := SliceOf(st, budget, policy).value;
      var next := Advance(st, slice).value;
      && next.processed == slice.End() > st.processed && next.processed <= st.request.Lifetime()
      && next.emitted == st.emitted + (if slice.emits then 1 else 0)
      && (next.complete <==> next.emitted == st.request.outputTokens)
      && (next.complete ==> next.processed == st.request.Lifetime())
      && (!next.complete ==> next.Bounded() && next.OnFrontier())
  {
  }

  /** A preemption that drops the KV makes the whole context one prefill again. */
  function Recomputed(st: RequestState): RequestState
  {
    st.(processed := 0,
        prefillTarget := if st.processed < st.request.promptTokens then st.request.promptTokens else st.processed + 1)
  }

  /** When a recompute may happen without losing the frontier. */
  predicate Restartable(st: RequestState)
  {
    st.emitted == 0 || st.processed == st.request.promptTokens + st.emitted - 1
  }

  /** Recomputing keeps the frontier if and only if the request has not emitted yet or has
      processed everything but its last token; otherwise the target falls short. */
  lemma RecomputeExact(st: RequestState)
    requires st.Bounded() && st.OnFrontier()
    ensures Recomputed(st).Bounded()
    ensures Recomputed(st).OnFrontier() <==> Restartable(st)
    ensures !Restartable(st) ==> Short(Recomputed(st))
    ensures st.Decoding() ==> Restartable(st)
  {
  }

  /** A prefill whose target lies before the tokens already emitted. */
  ghost predicate Short(st: RequestState)
  {
    st.Bounded() && !st.Decoding() && st.prefillTarget < st.request.promptTokens + st.emitted
  }

  /** A short target never recovers: further chunks and further recomputes keep it short, and
      the chunk that reaches it runs into a check, at once or at the next step. */
  lemma ShortRaises(st: RequestState, budget: nat, policy: Policy)
    requires policy.Valid() && budget > 0 && Short(st) && !st.complete
    ensures Short(Recomputed(st))
    ensures var slice := SliceOf(st, budget, policy).value;
      && SliceOf(st, budget, policy).Some?
      && (slice.End() < st.prefillTarget ==> Advance(st, slice).Some? && Short(Advance(st, slice).value))
      && (slice.End() == st.prefillTarget ==>
           || Advance(st, slice).None?
           || forall b: nat :: SliceOf(Advance(st, slice).value, b, policy).None?)
  {
  }
}
