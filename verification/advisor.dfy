/** The AI advisor panel of components/Advisor.tsx: three pieces of
    state, one click handler whose request either yields advice or
    fails, and the panels rendered from the state. Requests are taken
    one at a time: each click runs to completion before the next. */
module Advisor {
  import opened Types

  datatype AdvisorState = AdvisorState(advice: Option<FinancialAdvice>, loading: bool, error: Option<string>)

  const Fresh := AdvisorState(None, false, None)

  const NoDataMessage := "Please add some transactions first so I can analyze your data."
  const FailureMessage := "Failed to generate advice. Please check your API key and internet connection."

  /** How the request to the analysis endpoint ended. */
  datatype Outcome = Succeeded(result: FinancialAdvice) | Failed

  /** The synchronous part of a click: with no transactions only the
      error is set and no request goes out; otherwise loading starts and
      the error is cleared. The flag says whether a request is made. */
  function Begin(s: AdvisorState, count: nat): (r: (AdvisorState, bool))
    ensures r.1 <==> count > 0
    ensures !r.1 ==> r.0 == s.(error := Some(NoDataMessage))
    ensures r.1 ==> r.0 == s.(loading := true, error := None)
  {
    if count == 0 then (s.(error := Some(NoDataMessage)), false)
    else (s.(loading := true, error := None), true)
  }

  /** The request settles: the result replaces the advice, or the error
      is set and the advice kept; loading ends either way. */
  function Settle(s: AdvisorState, o: Outcome): (r: AdvisorState)
    ensures !r.loading
    ensures o.Succeeded? ==> r.advice == Some(o.result) && r.error == s.error
    ensures o.Failed? ==> r.advice == s.advice && r.error == Some(FailureMessage)
  {
    match o
    case Succeeded(result) => s.(advice := Some(result), loading := false)
    case Failed => s.(error := Some(FailureMessage), loading := false)
  }

  /** One click of "Generate Insight" or "Refresh Analysis", run to
      completion; `o` is how the request would end if one is made. */
  function Click(s: AdvisorState, count: nat, o: Outcome): (r: AdvisorState)
    ensures count == 0 ==> r == s.(error := Some(NoDataMessage))
    ensures count > 0 ==> !r.loading
    ensures count > 0 && o.Succeeded? ==> r == AdvisorState(Some(o.result), false, None)
    ensures count > 0 && o.Failed? ==> r == AdvisorState(s.advice, false, Some(FailureMessage))
  {
    var (started, requested) := Begin(s, count);
    if requested then Settle(started, o) else started
  }

  /** What the panel shows: the prompt with its button (and the error
      beneath it) when there is neither advice nor a request in flight,
      the spinner while loading, and the advice when there is some. */
  datatype View = View(prompt: bool, shownError: Option<string>, spinner: bool, shownAdvice: Option<FinancialAdvice>)

  function Render(s: AdvisorState): (v: View)
    ensures v.prompt <==> s.advice.None? && !s.loading
    ensures v.shownError.Some? <==> v.prompt && s.error.Some? && s.error.value != ""
    ensures v.shownError.Some? ==> v.shownError == s.error
    ensures v.spinner == s.loading && v.shownAdvice == s.advice
  {
    var prompt := s.advice.None? && !s.loading;
    View(prompt, if prompt && s.error.Some? && s.error.value != "" then s.error else None, s.loading, s.advice)
  }

  /** A click on an empty ledger makes no request and touches nothing
      but the error. */
  lemma EmptyLedgerClick(s: AdvisorState, o: Outcome)
    ensures !Begin(s, 0).1
    ensures Click(s, 0, o).advice == s.advice && Click(s, 0, o).loading == s.loading
    ensures Click(s, 0, o).error == Some(NoDataMessage)
  {
  }

  /** While a request is in flight the spinner shows, and the previous
      advice stays on screen beside it during a refresh. */
  lemma LoadingView(s: AdvisorState, count: nat)
    requires count > 0
    ensures Render(Begin(s, count).0).spinner
    ensures Render(Begin(s, count).0).shownAdvice == s.advice
    ensures !Render(Begin(s, count).0).prompt
  {
  }

  /** A failed refresh keeps the earlier advice on screen, and the error
      message, set in the state, is not displayed: the error line is
      part of the prompt, which the advice view replaces. */
  lemma FailedRefreshHidesError(s: AdvisorState, count: nat)
    requires s.advice.Some? && count > 0
    ensures Click(s, count, Failed).error == Some(FailureMessage)
    ensures Render(Click(s, count, Failed)).shownAdvice == s.advice
    ensures Render(Click(s, count, Failed)).shownError.None?
  {
  }

  /** From a fresh panel a failed first request shows the prompt again
      with the failure message under it. */
  lemma FailedFirstRequestShowsError(count: nat)
    requires count > 0
    ensures Render(Click(Fresh, count, Failed)) == View(true, Some(FailureMessage), false, None)
  {
  }

  /** A click sequence: the ledger size at each click and how that
      click's request ends. */
  datatype Event = Event(count: nat, outcome: Outcome)

  function Run(s: AdvisorState, evs: seq<Event>): AdvisorState
    decreases |evs|
  {
    if |evs| == 0 then s else Run(Click(s, evs[0].count, evs[0].outcome), evs[1..])
  }

  /** Between clicks nothing is loading, and advice once obtained is
      never lost while the panel stays mounted. */
  lemma {:induction false} RunSettles(s: AdvisorState, evs: seq<Event>)
    requires !s.loading
    ensures !Run(s, evs).loading
    ensures s.advice.Some? ==> Run(s, evs).advice.Some?
    decreases |evs|
  {
    if |evs| > 0 {
      RunSettles(Click(s, evs[0].count, evs[0].outcome), evs[1..]);
    }
  }

  /** Clicks whose request does not succeed leave the advice as it was. */
  lemma {:induction false} RunWithoutSuccessKeepsAdvice(s: AdvisorState, evs: seq<Event>)
    requires forall i :: 0 <= i < |evs| ==> !(evs[i].count > 0 && evs[i].outcome.Succeeded?)
    ensures Run(s, evs).advice == s.advice
    decreases |evs|
  {
    if |evs| > 0 {
      RunWithoutSuccessKeepsAdvice(Click(s, evs[0].count, evs[0].outcome), evs[1..]);
    }
  }

  lemma {:induction false} RunAppend(s: AdvisorState, evs: seq<Event>, e: Event)
    ensures Run(s, evs + [e]) == Click(Run(s, evs), e.count, e.outcome)
    decreases |evs|
  {
    if |evs| == 0 {
      assert evs + [e] == [e];
      assert [e][1..] == [];
    } else {
      assert (evs + [e])[1..] == evs[1..] + [e];
      RunAppend(Click(s, evs[0].count, evs[0].outcome), evs[1..], e);
    }
  }

  /** The advice shown is the result of the latest successful request:
      later clicks that make no request or fail do not replace it. */
  lemma LatestSuccessShown(s: AdvisorState, before: seq<Event>, count: nat, result: FinancialAdvice, after: seq<Event>)
    requires count > 0
    requires forall i :: 0 <= i < |after| ==> !(after[i].count > 0 && after[i].outcome.Succeeded?)
    ensures Run(s, before + [Event(count, Succeeded(result))] + after).advice == Some(result)
  {
    var e := Event(count, Succeeded(result));
    RunAppend(s, before, e);
    RunConcat(s, before + [e], after);
    RunWithoutSuccessKeepsAdvice(Run(s, before + [e]), after);
  }

  lemma {:induction false} RunConcat(s: AdvisorState, a: seq<Event>, b: seq<Event>)
    ensures Run(s, a + b) == Run(Run(s, a), b)
    decreases |a|
  {
    if |a| == 0 {
      assert a + b == b;
    } else {
      assert (a + b)[1..] == a[1..] + b;
      RunConcat(Click(s, a[0].count, a[0].outcome), a[1..], b);
    }
  }
}
