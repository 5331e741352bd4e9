/** What is sighted in the responses themselves, and what the events a run raises say. */
module Listings {
  import opened Common
  import opened Json
  import opened JsonMembers
  import opened Sequences
  import opened Fingerprints
  import opened FingerprintSafety
  import opened FingerprintHistory
  import opened ToolHashes
  import opened RugPull

  /** Tool i of the list has this name, and is what the sighting says. */
  predicate Sights(s: Sighting, session: int, serverId: string, tools: seq<Json>, i: int, ts: int) {
    0 <= i < |tools| && Has(tools[i], "name", Str(s.name)) && s == Sighting(session, serverId, s.name, tools[i], ts)
  }

  /** The sightings are of these tools of the list, in its order, and of every tool that has a name. */
  ghost predicate Lists(
    sightings: seq<Sighting>, picks: seq<int>, session: int, serverId: string, tools: seq<Json>, ts: int)
  {
    && |picks| == |sightings|
    && (forall k :: 0 <= k < |picks| ==> Sights(sightings[k], session, serverId, tools, picks[k], ts))
    && (forall k, l :: 0 <= k < l < |picks| ==> picks[k] < picks[l])
    && (forall i, name :: 0 <= i < |tools| && Has(tools[i], "name", Str(name)) ==> i in picks)
  }

  lemma OneMoreListed(
    sightings: seq<Sighting>, picks: seq<int>, session: int, serverId: string, tools: seq<Json>, ts: int, tool: Json,
    now: seq<Sighting>, all: seq<Json>)
    returns (more: seq<int>)
    requires Lists(sightings, picks, session, serverId, tools, ts) && WellFormed(tool)
    requires now == sightings + SightingOf(session, serverId, tool, ts) && all == tools + [tool]
    ensures Lists(now, more, session, serverId, all, ts)
  {
    var name := GetStr(tool, "name");
    more := if name.Some? then picks + [|tools|] else picks;
    forall s: string
      ensures name == Some(s) <==> Has(tool, "name", Str(s))
    {
      GetStrIsHas(tool, "name", s);
    }
    forall k | 0 <= k < |more|
      ensures |more| == |now| && Sights(now[k], session, serverId, all, more[k], ts)
    {
      if k < |picks| {
        assert Sights(sightings[k], session, serverId, tools, picks[k], ts);
      }
    }
    forall i, s | 0 <= i < |all| && Has(all[i], "name", Str(s))
      ensures i in more
    {
      if i < |tools| {
        assert Has(tools[i], "name", Str(s)) && i in picks;
        var k :| 0 <= k < |picks| && picks[k] == i;
        assert more[k] == i;
      } else {
        assert more[|picks|] == i;
      }
    }
  }

  lemma {:induction false} EveryNamedTool(session: int, serverId: string, tools: seq<Json>, ts: int)
    returns (picks: seq<int>)
    requires forall i :: 0 <= i < |tools| ==> WellFormed(tools[i])
    ensures Lists(SightingsIn(session, serverId, tools, ts), picks, session, serverId, tools, ts)
    decreases |tools|
  {
    if tools == [] {
      picks := [];
    } else {
      var n := |tools| - 1;
      var before := EveryNamedTool(session, serverId, tools[..n], ts);
      picks := OneMoreListed(SightingsIn(session, serverId, tools[..n], ts), before, session, serverId, tools[..n], ts,
                             tools[n], SightingsIn(session, serverId, tools, ts), tools);
    }
  }

  /** The response has this array at `result`.`tools`. */
  ghost predicate Offers(response: Json, tools: seq<Json>) {
    exists result :: Has(response, "result", result) && Has(result, "tools", Array(tools))
  }

  lemma OffersExactly(response: Json, tools: seq<Json>)
    requires WellFormed(response)
    ensures Offers(response, tools) ==>
              ToolsIn(response) == tools && forall i :: 0 <= i < |tools| ==> WellFormed(tools[i])
    ensures ToolsIn(response) == tools && tools != [] ==> Offers(response, tools)
  {
    if result :| Has(response, "result", result) && Has(result, "tools", Array(tools)) {
      GetIsHas(response, "result", result);
      MemberWellFormed(response, "result", result);
      GetIsHas(result, "tools", Array(tools));
      MemberWellFormed(result, "tools", Array(tools));
      assert WellFormed(Array(tools));
    }
    if ToolsIn(response) == tools && tools != [] {
      var result := Get(response, "result").value;
      GetIsHas(response, "result", result);
      MemberWellFormed(response, "result", result);
      GetIsHas(result, "tools", Array(tools));
    }
  }

  /**
   What is sighted in a response: the tools with a name under `result`.`tools`, in order, each as it
   stands there, at the time of the response.
   */
  lemma ResponseLists(session: int, serverId: string, response: Json, tools: seq<Json>, ts: int)
    returns (picks: seq<int>)
    requires WellFormed(response) && Offers(response, tools)
    ensures Lists(SightingsIn(session, serverId, ToolsIn(response), ts), picks, session, serverId, tools, ts)
  {
    OffersExactly(response, tools);
    picks := EveryNamedTool(session, serverId, tools, ts);
  }

  /** Nothing is sighted in a response without such an array. */
  lemma NothingListed(session: int, serverId: string, response: Json, ts: int)
    requires WellFormed(response) && forall tools :: !Offers(response, tools)
    ensures SightingsIn(session, serverId, ToolsIn(response), ts) == []
  {
    OffersExactly(response, ToolsIn(response));
  }

  // ---------------------------------------------------------------- events

  /** An equal definition is among these. */
  ghost predicate Known(past: seq<Sighting>, tool: Json) {
    exists k :: 0 <= k < |past| && SameDefinition(past[k].tool, tool)
  }

  /**
   What a run has to raise for a sighting: nothing, or one event that says that the definition
   changed or came back.
   */
  ghost predicate SaysWhat(flags: seq<Flag>, past: seq<Sighting>, s: Sighting) {
    if past == [] || Newest(past, s.tool) then flags == []
    else flags == [Flag(s.name, s.ts, if Known(past, s.tool) then Reverted else Changed)]
  }

  lemma FlagSays(t: Table, legacy: map<string, string>, c: Call, past: seq<Sighting>, s: Sighting)
    requires Step(t, legacy, c).Some? && Step(t, legacy, c).value.outcome == Decided(past, s.tool)
    requires c.tool == s.name && c.ts == s.ts
    ensures SaysWhat(FlagOf(t, legacy, c), past, s)
  {
  }

  /** What an event says: which tool, when, and that its definition changed or came back. */
  lemma RaisedSays(hash: string -> string, legacy: map<string, string>, sightings: seq<Sighting>, i: nat)
    requires Injective(hash) && Rekeyable(legacy) && AllWellFormed(sightings, legacy)
    requires i < |sightings| && Alone(legacy, sightings[i].serverId)
    ensures var s := sightings[i];
            SaysWhat(Raised(hash, legacy, sightings, i), Past(sightings[..i], s.serverId, s.name), s)
  {
    var s, calls := sightings[i], Calls(hash, sightings);
    DefinitionsCompared(hash, legacy, sightings, i);
    CallsPrefix(hash, sightings, i);
    FlagSays(After(Table([], 0), legacy, calls[..i]), legacy, calls[i], Past(sightings[..i], s.serverId, s.name), s);
  }
}
