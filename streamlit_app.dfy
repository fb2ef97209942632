/** The stateful part of the Streamlit page (app.py): the session state it
    keeps between reruns, the artifact buttons' toggle callback, the listing
    of artifact cards, and the question form with its one-shot run flag. */
module StreamlitApp {
  import opened Json
  import opened Optional
  import opened PyStrings
  import opened ArtifactList
  import opened ArtifactCards

  /** The reply shown for a blank question (app.py:73). */
  const EnterQuestion := "Please enter a question before sending."

  /** One call of the agent: the question it was given, the value of
      `should_run_agent` at that moment, and `agent_output` as the run found it. */
  datatype AgentRun = AgentRun(question: string, flagAtRun: bool, outputAtRun: Option<string>)

  /** One row of the artifact listing: the warning for a skipped entry (with
      its 1-based position), or a card. */
  datatype ListingItem = Skipped(position: nat) | CardItem(card: Card)

  /** The listing section: the "No artifacts added yet" notice for an empty
      list, or the rows produced before the loop finished or raised. */
  datatype RepositoryView = NoArtifacts | Listing(items: seq<ListingItem>, completed: bool)

  /** The row for the entry at position `idx`, when its card does not raise. */
  function ItemOf(idx: nat, outcome: CardOutcome): ListingItem
    requires !outcome.Raises?
  {
    if outcome.NotADict? then Skipped(idx) else CardItem(outcome.card)
  }

  /** Row `k` (0-based) of a listing is the one for entry `k`, numbered
      `k + 1`, whose card does not raise. */
  predicate RowShows(list: seq<Value>, k: nat, item: ListingItem)
    requires k < |list|
  {
    !CardFor(k + 1, list[k]).Raises? && item == ItemOf(k + 1, CardFor(k + 1, list[k]))
  }

  /** What the display loop of app.py:394-443 shows for `list`: one row per
      entry in list order, numbered from 1, up to the first entry whose card
      raises, where the page stops. */
  ghost predicate RendersAs(list: seq<Value>, view: RepositoryView) {
    && (view.NoArtifacts? <==> list == [])
    && (view.Listing? ==>
      && |view.items| <= |list|
      && (forall k :: 0 <= k < |view.items| ==> RowShows(list, k, view.items[k]))
      && (view.completed <==> |view.items| == |list|)
      && (!view.completed ==> CardFor(|view.items| + 1, list[|view.items|]).Raises?))
  }

  /** The loop over `enumerate(artifact_list, start=1)` (app.py:394-443). */
  method RenderRepository(list: seq<Value>) returns (view: RepositoryView)
    ensures RendersAs(list, view)
  {
    if list == [] {
      return NoArtifacts;
    }
    var items: seq<ListingItem> := [];
    var idx := 1;
    while idx <= |list|
      invariant 1 <= idx <= |list| + 1
      invariant |items| == idx - 1
      invariant forall k :: 0 <= k < |items| ==> RowShows(list, k, items[k])
    {
      var outcome := CardFor(idx, list[idx - 1]);
      if outcome.Raises? {
        return Listing(items, false);
      }
      RowsExtend(list, items, ItemOf(idx, outcome));
      items := items + [ItemOf(idx, outcome)];
      idx := idx + 1;
    }
    return Listing(items, true);
  }

  /** The rows for the first entries, followed by the row for the next one. */
  lemma RowsExtend(list: seq<Value>, items: seq<ListingItem>, item: ListingItem)
    requires |items| < |list|
    requires forall k :: 0 <= k < |items| ==> RowShows(list, k, items[k])
    requires RowShows(list, |items|, item)
    ensures forall k :: 0 <= k < |items| + 1 ==> RowShows(list, k, (items + [item])[k])
  {
    forall k | 0 <= k < |items| + 1 ensures RowShows(list, k, (items + [item])[k]) {
      if k < |items| {
        assert (items + [item])[k] == items[k];
      }
    }
  }

  /** A listing never shows a card for an entry that is not a dict: every such
      entry the loop reaches becomes a "skipped" warning carrying its position. */
  lemma NonDictEntriesSkipped(list: seq<Value>, view: RepositoryView, k: nat)
    requires RendersAs(list, view) && view.Listing? && k < |view.items| && !list[k].Dict?
    ensures view.items[k] == Skipped(k + 1)
  {
  }

  /** The session state of one browser session (`st.session_state`). A key
      that has never been set reads as None. */
  class Session {
    /** `string_list`, the artifact list (app.py:320-321). */
    var stringList: Option<seq<Value>>
    /** `agent_request`, the question waiting for the agent (app.py:451). */
    var agentRequest: Option<string>
    /** `should_run_agent`, the one-shot run flag (app.py:452-456); a missing
        key reads as false. */
    var shouldRunAgent: bool
    /** `agent_output` (app.py:70, 73). */
    var agentOutput: Option<string>
    /** The list as last written by `persist_list`. */
    ghost var persisted: Option<seq<Value>>
    /** Every call of the agent, in order. */
    ghost var agentRuns: seq<AgentRun>

    /** Between reruns the run flag is down and a waiting question is a
        stripped, non-empty one. */
    ghost predicate Valid()
      reads this
    {
      && !shouldRunAgent
      && (agentRequest.Some? ==> agentRequest.value != [] && Strip(agentRequest.value) == agentRequest.value)
    }

    /** A new session: no key is set yet. */
    constructor ()
      ensures stringList == None && agentRequest == None && agentOutput == None
      ensures persisted == None && agentRuns == []
      ensures Valid()
    {
      stringList, agentRequest, shouldRunAgent, agentOutput := None, None, false, None;
      persisted, agentRuns := None, [];
    }

    /** app.py:320-321: load the persisted list only when the key is absent,
        so running it again changes nothing. */
    method InitStringList(loaded: seq<Value>)
      modifies this`stringList
      ensures stringList == if old(stringList).None? then Some(loaded) else old(stringList)
    {
      if stringList.None? {
        stringList := Some(loaded);
      }
    }

    /** `run_agent_callback` (app.py:67-73): a question that is blank after
        stripping gets the fixed reply and no run; any other clears the output
        and runs the agent. */
    method RunAgentCallback(question: string)
      modifies this`agentOutput, this`agentRuns
      ensures Strip(question) != [] ==>
        agentOutput == Some("") && agentRuns == old(agentRuns) + [AgentRun(question, shouldRunAgent, Some(""))]
      ensures Strip(question) == [] ==>
        agentOutput == Some(EnterQuestion) && agentRuns == old(agentRuns)
    {
      if question != [] && Strip(question) != [] {
        agentOutput := Some("");
        agentRuns := agentRuns + [AgentRun(question, shouldRunAgent, agentOutput)];
      } else {
        agentOutput := Some(EnterQuestion);
      }
    }

    /** The form handling of app.py:448-459. A send with a non-blank question
        stores the stripped question and raises the flag; the flag is lowered
        before the agent runs, so each send runs the agent at most once, and
        always with the flag already down. A blank send changes nothing: it
        neither runs the agent nor shows the blank-question reply. */
    method HandleSubmission(sendClicked: bool, input: string)
      requires Valid()
      modifies this`agentRequest, this`shouldRunAgent, this`agentOutput, this`agentRuns
      ensures Valid()
      ensures var asked := sendClicked && Strip(input) != [];
        && agentRequest == (if asked then Some(Strip(input)) else old(agentRequest))
        && agentRuns == old(agentRuns) + (if asked then [AgentRun(Strip(input), false, Some(""))] else [])
        && agentOutput == (if asked then Some("") else old(agentOutput))
    {
      var question := Strip(input);
      if sendClicked && question != [] {
        StripIdempotent(input);
        agentRequest := Some(question);
        shouldRunAgent := true;
      }
      assert shouldRunAgent <==> sendClicked && question != [];
      if shouldRunAgent {
        shouldRunAgent := false;
        var userQuestion := agentRequest.GetOr("");
        assert userQuestion == question;
        assert Strip(userQuestion) != [];
        if userQuestion != [] {
          RunAgentCallback(userQuestion);
        }
        assert agentRuns == old(agentRuns) + [AgentRun(question, false, Some(""))];
      }
    }

    /** One run of the page script from app.py:320 on: initialise the list,
        show the listing, then handle the form. When a card raises, the script
        stops there and the form handling never happens. */
    method RunPage(loaded: seq<Value>, sendClicked: bool, input: string) returns (view: RepositoryView)
      requires Valid()
      modifies this
      ensures Valid()
      ensures stringList == (if old(stringList).None? then Some(loaded) else old(stringList))
      ensures persisted == old(persisted)
      ensures RendersAs(stringList.value, view)
      ensures var stopped := view.Listing? && !view.completed;
        var asked := !stopped && sendClicked && Strip(input) != [];
        && agentRequest == (if asked then Some(Strip(input)) else old(agentRequest))
        && agentRuns == old(agentRuns) + (if asked then [AgentRun(Strip(input), false, Some(""))] else [])
        && agentOutput == (if asked then Some("") else old(agentOutput))
    {
      InitStringList(loaded);
      view := RenderRepository(stringList.value);
      if view.Listing? && !view.completed {
        return;
      }
      ghost var list := stringList;
      HandleSubmission(sendClicked, input);
      assert stringList == list;
    }
  }

  /** The callback `make_toggle(artifact)` returns (app.py:25-40). The
      artifact it captured is a constant: pressing the button stamps a copy
      and never changes the artifact itself. */
  class ToggleCallback {
    const artifact: map<string, Value>

    constructor (artifact: map<string, Value>)
      ensures this.artifact == artifact
    {
      this.artifact := artifact;
    }

    /** One press of the button. With `string_list` present the list becomes
        its toggle (every dict entry of that name dropped, or the stamped copy
        appended) and is persisted. With the key absent, the append of line 38
        raises `KeyError`: nothing changes and nothing is persisted. */
    method Toggle(session: Session, now: string) returns (raised: bool)
      requires "name" in artifact
      modifies session`stringList, session`persisted
      ensures raised <==> old(session.stringList).None?
      ensures raised ==> session.stringList == old(session.stringList) && session.persisted == old(session.persisted)
      ensures !raised ==>
        && session.stringList == Some(Toggled(old(session.stringList).value, artifact, now))
        && session.persisted == session.stringList
    {
      var lst := session.stringList.GetOr([]);
      var name := artifact["name"];
      if HasNamed(lst, name) {
        session.stringList := Some(WithoutNamed(lst, name));
      } else {
        var stamped := Stamped(artifact, now);
        if session.stringList.None? {
          return true;
        }
        session.stringList := Some(session.stringList.value + [Dict(stamped)]);
      }
      session.persisted := session.stringList;
      return false;
    }
  }
}
