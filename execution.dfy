/**
 * Running a plan against the two maps its record steps share: the
 * individual responses by id, and the response cookies by cookie key.
 *
 * Steps 1 to 7 of a chain only compute the value the record step stores;
 * that computation is the parameter `respond` (what the response filter
 * hands the record step for an entry), and the Set-Cookie decoding is the
 * parameter `decode`.
 */
module Execution {
  import opened Cookies
  import opened IndividualRequests
  import opened ExecutionPlans

  /** The response to one individual request. */
  datatype IndividualResponse = IndividualResponse(status: int, headers: map<string, string>, body: seq<int>)

  /** What the response filter hands the record step: the response and its Set-Cookie headers. */
  datatype IndividualResponseWithCookies = IndividualResponseWithCookies(
    individualResponse: IndividualResponse,
    cookies: seq<string>)

  /** The two shared maps. */
  datatype Collected = Collected(responses: map<string, IndividualResponse>, cookies: map<string, Cookie>)

  const Empty: Collected := Collected(map[], map[])

  /** The record step of `e`: its response under its id, its cookies merged. */
  function Record(st: Collected, e: Entry, respond: Entry -> IndividualResponseWithCookies,
                  decode: seq<string> -> seq<Cookie>): Collected
  {
    var r := respond(e);
    Collected(st.responses[e.id := r.individualResponse], MergeCookies(st.cookies, decode(r.cookies)))
  }

  /** The record steps of `entries`, in order. */
  function RecordAll(st: Collected, entries: seq<Entry>, respond: Entry -> IndividualResponseWithCookies,
                     decode: seq<string> -> seq<Cookie>): Collected
  {
    if entries == [] then st
    else Record(RecordAll(st, entries[..|entries| - 1], respond, decode), entries[|entries| - 1], respond, decode)
  }

  /** The effect of running `events` one after another: only record steps touch the maps. */
  function Replay(st: Collected, events: seq<Event>, respond: Entry -> IndividualResponseWithCookies,
                  decode: seq<string> -> seq<Cookie>): Collected
  {
    if events == [] then st
    else
      var last := events[|events| - 1];
      var before := Replay(st, events[..|events| - 1], respond, decode);
      if last.step == AddResponse then Record(before, Entry(last.id, last.request), respond, decode) else before
  }

  lemma {:induction false} ReplayAppend(st: Collected, first: seq<Event>, second: seq<Event>,
                                        respond: Entry -> IndividualResponseWithCookies, decode: seq<string> -> seq<Cookie>)
    ensures Replay(st, first + second, respond, decode) == Replay(Replay(st, first, respond, decode), second, respond, decode)
  {
    if second == [] {
      assert first + second == first;
    } else {
      var n := |second|;
      assert (first + second)[..|first + second| - 1] == first + second[..n - 1];
      ReplayAppend(st, first, second[..n - 1], respond, decode);
    }
  }

  /** Running events has the effect of the record steps among them, in order. */
  lemma {:induction false} ReplayIsRecordAll(st: Collected, events: seq<Event>,
                                             respond: Entry -> IndividualResponseWithCookies, decode: seq<string> -> seq<Cookie>)
    ensures Replay(st, events, respond, decode) == RecordAll(st, Records(events), respond, decode)
  {
    if events != [] {
      var n := |events|;
      var last := events[n - 1];
      ReplayIsRecordAll(st, events[..n - 1], respond, decode);
      var before := Records(events[..n - 1]);
      if last.step == AddResponse {
        assert Records(events) == before + [Entry(last.id, last.request)];
        assert (before + [Entry(last.id, last.request)])[..|before|] == before;
      } else {
        assert Records(events) == before;
      }
    }
  }

  /**
   * A run of the plan of a request tree leaves what recording every entry
   * of the tree in pre-order leaves.
   */
  lemma PlanRecordsTree(st: Collected, level: seq<Entry>, respond: Entry -> IndividualResponseWithCookies,
                        decode: seq<string> -> seq<Cookie>)
    ensures Replay(st, Trace(ParallelPlan(level)), respond, decode) == RecordAll(st, Flatten(level), respond, decode)
  {
    ReplayIsRecordAll(st, Trace(ParallelPlan(level)), respond, decode);
    PlanRunsEachStepOncePerEntry(level, AddResponse);
  }

  /** The responses map is flat: it holds the old ids and the id of every recorded entry, and nothing else. */
  lemma {:induction false} RecordAllKeys(st: Collected, entries: seq<Entry>,
                                         respond: Entry -> IndividualResponseWithCookies, decode: seq<string> -> seq<Cookie>)
    ensures RecordAll(st, entries, respond, decode).responses.Keys == st.responses.Keys + set e | e in entries :: e.id
  {
    var n := |entries|;
    if n > 0 {
      RecordAllKeys(st, entries[..n - 1], respond, decode);
      assert entries == entries[..n - 1] + [entries[n - 1]];
    }
  }

  /** Last write wins: an entry no later entry shares its id with is the one whose response is kept. */
  lemma {:induction false} RecordAllLastWins(st: Collected, entries: seq<Entry>, i: nat,
                                             respond: Entry -> IndividualResponseWithCookies, decode: seq<string> -> seq<Cookie>)
    requires i < |entries|
    requires forall j :: i < j < |entries| ==> entries[j].id != entries[i].id
    ensures entries[i].id in RecordAll(st, entries, respond, decode).responses
    ensures RecordAll(st, entries, respond, decode).responses[entries[i].id] == respond(entries[i]).individualResponse
  {
    var n := |entries|;
    if i < n - 1 {
      RecordAllLastWins(st, entries[..n - 1], i, respond, decode);
    }
  }

  /** The cookies the record steps of `entries` merge, in order. */
  function CookiesOf(entries: seq<Entry>, respond: Entry -> IndividualResponseWithCookies,
                     decode: seq<string> -> seq<Cookie>): seq<Cookie>
  {
    if entries == [] then []
    else CookiesOf(entries[..|entries| - 1], respond, decode) + decode(respond(entries[|entries| - 1]).cookies)
  }

  /** The cookie map is the old one with every recorded entry's cookies merged into it, in order. */
  lemma {:induction false} RecordAllCookies(st: Collected, entries: seq<Entry>,
                                            respond: Entry -> IndividualResponseWithCookies, decode: seq<string> -> seq<Cookie>)
    ensures RecordAll(st, entries, respond, decode).cookies == MergeCookies(st.cookies, CookiesOf(entries, respond, decode))
  {
    var n := |entries|;
    if n > 0 {
      RecordAllCookies(st, entries[..n - 1], respond, decode);
      MergeCookiesAppend(st.cookies, CookiesOf(entries[..n - 1], respond, decode), decode(respond(entries[n - 1]).cookies));
    }
  }

  /**
   * The maps a multiplexed request's record steps share
   * (`individualResponses` and `responseCookies`).
   */
  class ResponseCollector {
    var individualResponses: map<string, IndividualResponse>
    var responseCookies: map<string, Cookie>

    function State(): Collected
      reads this
    {
      Collected(individualResponses, responseCookies)
    }

    constructor ()
      ensures State() == Empty
    {
      individualResponses := map[];
      responseCookies := map[];
    }

    /** `addResponseCookies`: each decoded cookie is put under its key, in order. */
    method AddResponseCookies(setCookieHeaders: seq<string>, decode: seq<string> -> seq<Cookie>)
      modifies this
      ensures responseCookies == MergeCookies(old(responseCookies), decode(setCookieHeaders))
      ensures individualResponses == old(individualResponses)
    {
      var newCookies := decode(setCookieHeaders);
      for i := 0 to |newCookies|
        invariant responseCookies == MergeCookies(old(responseCookies), newCookies[..i])
        invariant individualResponses == old(individualResponses)
      {
        var newCookie := newCookies[i];
        var key := CookieKey(newCookie);
        responseCookies := responseCookies[key := newCookie];
        assert newCookies[..i + 1][..i] == newCookies[..i];
      }
      assert newCookies[..|newCookies|] == newCookies;
    }

    /** The record step ("add response") of the request `id`. */
    method RecordResponse(id: string, request: IndividualRequest,
                       respond: Entry -> IndividualResponseWithCookies, decode: seq<string> -> seq<Cookie>)
      modifies this
      ensures State() == Record(old(State()), Entry(id, request), respond, decode)
    {
      var individualResponseWithCookies := respond(Entry(id, request));
      individualResponses := individualResponses[id := individualResponseWithCookies.individualResponse];
      AddResponseCookies(individualResponseWithCookies.cookies, decode);
    }

    /**
     * Runs a plan, the branches of a `Tasks.par` in list order; its effect
     * on the maps is that of the plan's record steps, in that order.
     */
    method Execute(p: Plan, respond: Entry -> IndividualResponseWithCookies, decode: seq<string> -> seq<Cookie>)
      modifies this
      ensures State() == Replay(old(State()), Trace(p), respond, decode)
      decreases p
    {
      match p
      case Action(ev) =>
        if ev.step == AddResponse {
          RecordResponse(ev.id, ev.request, respond, decode);
        }
      case Seq(ps) =>
        ExecuteAll(p, ps, respond, decode);
      case Par(ps) =>
        ExecuteAll(p, ps, respond, decode);
      case DoNothing =>
    }

    /** Runs the parts of a composed plan one after another. */
    method ExecuteAll(ghost p: Plan, ps: seq<Plan>, respond: Entry -> IndividualResponseWithCookies,
                      decode: seq<string> -> seq<Cookie>)
      requires forall i :: 0 <= i < |ps| ==> ps[i] < p
      modifies this
      ensures State() == Replay(old(State()), TraceAll(ps), respond, decode)
      decreases p, ps
    {
      for i := 0 to |ps|
        invariant State() == Replay(old(State()), TraceAll(ps[..i]), respond, decode)
      {
        Execute(ps[i], respond, decode);
        assert ps[..i + 1][..i] == ps[..i];
        ReplayAppend(old(State()), TraceAll(ps[..i]), Trace(ps[i]), respond, decode);
      }
      assert ps[..|ps|] == ps;
    }
  }
}
