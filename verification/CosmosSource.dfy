/**
 * Event and message handlers of a Cosmos data source (chain/cosmos/src/data_source.rs): which lists
 * of handlers are valid, and which handler runs for an event.
 */
module CosmosSources {
  import opened Common

  datatype Origin = BeginBlock | DeliverTx | EndBlock

  datatype EventHandler = EventHandler(event: string, origin: Option<Origin>, handler: string)

  datatype Error = MultipleOrigins(event: string, origin: Option<Origin>) | CombinedOrigins(event: string)
    | DuplicateUrl(url: string)

  /** Whether a handler runs for events of this type from this origin. */
  predicate Handles(h: EventHandler, event: string, origin: Origin) {
    h.event == event && (h.origin.None? || h.origin.value == origin)
  }

  /** `handler_for_event`: the first one in the list. */
  function HandlerForEvent(hs: seq<EventHandler>, event: string, origin: Origin): Option<EventHandler> {
    if hs == [] then None
    else if Handles(hs[0], event, origin) then Some(hs[0])
    else HandlerForEvent(hs[1..], event, origin)
  }

  /** At most one handler runs for every event type and origin. */
  ghost predicate Unambiguous(hs: seq<EventHandler>) {
    forall i, j, event, origin :: 0 <= i < j < |hs| ==>
      !(Handles(hs[i], event, origin) && Handles(hs[j], event, origin))
  }

  /** Two handlers for the same event type, of which one has no origin filter or both the same. */
  predicate Clash(a: EventHandler, b: EventHandler) {
    a.event == b.event && (a.origin == b.origin || a.origin.None? || b.origin.None?)
  }

  lemma ClashIsAmbiguity(a: EventHandler, b: EventHandler)
    ensures Clash(a, b) <==> exists event, origin :: Handles(a, event, origin) && Handles(b, event, origin)
  {
    if Clash(a, b) {
      var origin := if a.origin.Some? then a.origin.value else if b.origin.Some? then b.origin.value else BeginBlock;
      assert Handles(a, a.event, origin) && Handles(b, a.event, origin);
    }
  }

  lemma UnambiguousIff(hs: seq<EventHandler>)
    ensures Unambiguous(hs) <==> forall i, j :: 0 <= i < j < |hs| ==> !Clash(hs[i], hs[j])
  {
    forall i, j | 0 <= i < j < |hs| {
      ClashIsAmbiguity(hs[i], hs[j]);
    }
  }

  // ----- validation -----

  type OriginsByEvent = map<string, set<Option<Origin>>>

  predicate Grouped(types: OriginsByEvent, e: string, o: Option<Origin>) {
    e in types && o in types[e]
  }

  ghost predicate HasHandler(hs: seq<EventHandler>, e: string, o: Option<Origin>) {
    exists i :: 0 <= i < |hs| && hs[i].event == e && hs[i].origin == o
  }

  ghost predicate Groups(types: OriginsByEvent, hs: seq<EventHandler>) {
    forall e, o :: Grouped(types, e, o) <==> HasHandler(hs, e, o)
  }

  lemma HasHandlerAppend(hs: seq<EventHandler>, h: EventHandler, e: string, o: Option<Origin>)
    ensures HasHandler(hs + [h], e, o) <==> HasHandler(hs, e, o) || (h.event == e && h.origin == o)
  {
    var more := hs + [h];
    assert more[|hs|] == h;
    if HasHandler(hs, e, o) {
      var i :| 0 <= i < |hs| && hs[i].event == e && hs[i].origin == o;
      assert more[i] == hs[i];
    }
  }

  ghost predicate SomeRepeats(hs: seq<EventHandler>) {
    exists i, j :: 0 <= i < j < |hs| && hs[i].event == hs[j].event && hs[i].origin == hs[j].origin
  }

  lemma RepeatsAppend(hs: seq<EventHandler>, h: EventHandler)
    ensures SomeRepeats(hs + [h]) <==>
      SomeRepeats(hs) || HasHandler(hs, h.event, h.origin)
  {
    var more := hs + [h];
    assert more[|hs|] == h;
    if SomeRepeats(hs) {
      var i, j :| 0 <= i < j < |hs| && hs[i].event == hs[j].event && hs[i].origin == hs[j].origin;
      assert more[i] == hs[i] && more[j] == hs[j];
    }
    if HasHandler(hs, h.event, h.origin) {
      var i :| 0 <= i < |hs| && hs[i].event == h.event && hs[i].origin == h.origin;
      assert more[i] == hs[i];
    }
    if SomeRepeats(more) {
      var i, j :| 0 <= i < j < |more| && more[i].event == more[j].event && more[i].origin == more[j].origin;
      assert more[i] == hs[i];
      assert j < |hs| ==> more[j] == hs[j];
    }
  }

  lemma GroupsAppend(types: OriginsByEvent, hs: seq<EventHandler>, h: EventHandler)
    requires Groups(types, hs)
    ensures var origins := if h.event in types then types[h.event] else {};
      Groups(types[h.event := origins + {h.origin}], hs + [h])
  {
    var origins := if h.event in types then types[h.event] else {};
    var types' := types[h.event := origins + {h.origin}];
    forall e, o ensures Grouped(types', e, o) <==> HasHandler(hs + [h], e, o) {
      HasHandlerAppend(hs, h, e, o);
      assert Grouped(types, e, o) <==> HasHandler(hs, e, o);
    }
  }

  /** The first loop: group origins by event type and report those that come twice. */
  method GroupOrigins(hs: seq<EventHandler>) returns (types: OriginsByEvent, errors: seq<Error>)
    ensures Groups(types, hs)
    ensures errors == [] <==> !SomeRepeats(hs)
  {
    types, errors := map[], [];
    for n := 0 to |hs|
      invariant Groups(types, hs[..n])
      invariant errors == [] <==> !SomeRepeats(hs[..n])
    {
      var h := hs[n];
      assert hs[..n + 1] == hs[..n] + [h];
      RepeatsAppend(hs[..n], h);
      GroupsAppend(types, hs[..n], h);
      assert Grouped(types, h.event, h.origin) <==> HasHandler(hs[..n], h.event, h.origin);
      var origins := if h.event in types then types[h.event] else {};
      if h.origin in origins {
        errors := errors + [MultipleOrigins(h.event, h.origin)];
      }
      types := types[h.event := origins + {h.origin}];
    }
    assert hs[..|hs|] == hs;
  }

  ghost predicate Combined(origins: set<Option<Origin>>) {
    |origins| > 1 && None in origins
  }

  /** The second loop: an event type with and without origin filters. */
  method CheckCombined(types: OriginsByEvent) returns (errors: seq<Error>)
    ensures errors == [] <==> forall e :: e in types ==> !Combined(types[e])
  {
    errors := [];
    var todo := types.Keys;
    while todo != {}
      invariant todo <= types.Keys
      invariant errors == [] <==> forall e :: e in types && e !in todo ==> !Combined(types[e])
    {
      var e :| e in todo;
      if |types[e]| > 1 && !(forall o :: o in types[e] ==> o.Some?) {
        errors := errors + [CombinedOrigins(e)];
      }
      todo := todo - {e};
    }
  }

  lemma CombinedIff(origins: set<Option<Origin>>)
    ensures Combined(origins) <==> None in origins && exists o :: o in origins && o != None
  {
    if None in origins {
      if Combined(origins) {
        var rest := origins - {None};
        assert |rest| == |origins| - 1;
        assert rest != {};
        var o :| o in rest;
        assert o in origins;
      }
      if o :| o in origins && o != None {
        assert {None, o} <= origins;
        assert |origins - {None, o}| == |origins| - |{None, o}|;
      }
    }
  }

  lemma ValidIffNoClash(hs: seq<EventHandler>, types: OriginsByEvent)
    requires Groups(types, hs)
    ensures (!SomeRepeats(hs) && forall e :: e in types ==> !Combined(types[e]))
        <==> forall i, j :: 0 <= i < j < |hs| ==> !Clash(hs[i], hs[j])
  {
    forall e | e in types { CombinedIff(types[e]); }
    if e :| e in types && Combined(types[e]) {
      var o :| o in types[e] && o != None;
      assert Grouped(types, e, o) && Grouped(types, e, None);
      var i :| 0 <= i < |hs| && hs[i].event == e && hs[i].origin == None;
      var j :| 0 <= j < |hs| && hs[j].event == e && hs[j].origin == o;
      assert Clash(hs[i], hs[j]) && Clash(hs[j], hs[i]);
      assert i != j;
    }
    if SomeRepeats(hs) {
      var i, j :| 0 <= i < j < |hs| && hs[i].event == hs[j].event && hs[i].origin == hs[j].origin;
      assert Clash(hs[i], hs[j]);
    }
    if i, j :| 0 <= i < j < |hs| && Clash(hs[i], hs[j]) {
      if hs[i].origin != hs[j].origin {
        var e := hs[i].event;
        assert HasHandler(hs, e, hs[i].origin) && HasHandler(hs, e, hs[j].origin);
        assert Grouped(types, e, hs[i].origin) && Grouped(types, e, hs[j].origin);
        assert Combined(types[e]);
      }
    }
  }

  /**
   * `validate`, the part about event handlers: no error exactly when every event type and origin is
   * handled at most once.
   */
  method ValidateEventHandlers(hs: seq<EventHandler>) returns (errors: seq<Error>)
    ensures errors == [] <==> Unambiguous(hs)
  {
    var types, repeated := GroupOrigins(hs);
    var combined := CheckCombined(types);
    ValidIffNoClash(hs, types);
    UnambiguousIff(hs);
    errors := repeated + combined;
  }

  // ----- lookup -----

  /** The handler at `i` runs for the event, and none before it does. */
  ghost predicate IsFirst(hs: seq<EventHandler>, i: nat, event: string, origin: Origin)
    requires i < |hs|
  {
    Handles(hs[i], event, origin) && forall j :: 0 <= j < i ==> !Handles(hs[j], event, origin)
  }

  lemma {:induction false} LookupFinds(hs: seq<EventHandler>, event: string, origin: Origin)
    ensures match HandlerForEvent(hs, event, origin)
      case None => forall h :: h in hs ==> !Handles(h, event, origin)
      case Some(h) => h in hs && Handles(h, event, origin)
  {
    if hs != [] && !Handles(hs[0], event, origin) {
      LookupFinds(hs[1..], event, origin);
    }
  }

  /** The handler that runs is the first one in the list that handles the event. */
  lemma {:induction false} LookupIsFirst(hs: seq<EventHandler>, event: string, origin: Origin, i: nat)
    requires i < |hs| && IsFirst(hs, i, event, origin)
    ensures HandlerForEvent(hs, event, origin) == Some(hs[i])
  {
    if i > 0 {
      assert !Handles(hs[0], event, origin);
      assert hs[1..][i - 1] == hs[i];
      LookupIsFirst(hs[1..], event, origin, i - 1);
    }
  }

  /** With a valid list, the handler that runs does not depend on the order of the list. */
  lemma OrderIrrelevant(hs: seq<EventHandler>, hs': seq<EventHandler>, event: string, origin: Origin)
    requires Unambiguous(hs) && multiset(hs) == multiset(hs')
    ensures HandlerForEvent(hs, event, origin) == HandlerForEvent(hs', event, origin)
  {
    LookupFinds(hs, event, origin);
    LookupFinds(hs', event, origin);
    assert forall h :: h in hs <==> h in multiset(hs);
    assert forall h :: h in hs' <==> h in multiset(hs');
    var a, b := HandlerForEvent(hs, event, origin), HandlerForEvent(hs', event, origin);
    if a.Some? && b.Some? {
      var i :| 0 <= i < |hs| && hs[i] == a.value;
      var j :| 0 <= j < |hs| && hs[j] == b.value;
      assert Handles(hs[i], event, origin) && Handles(hs[j], event, origin);
    }
  }

  /** Swapping two different handlers for the same event changes which one runs. */
  lemma OrderMattersOtherwise(a: EventHandler, b: EventHandler)
    requires Clash(a, b) && a != b
    ensures exists event, origin :: HandlerForEvent([a, b], event, origin) != HandlerForEvent([b, a], event, origin)
  {
    ClashIsAmbiguity(a, b);
    var event, origin :| Handles(a, event, origin) && Handles(b, event, origin);
    assert HandlerForEvent([a, b], event, origin) == Some(a);
    assert HandlerForEvent([b, a], event, origin) == Some(b);
  }

  // ----- messages -----

  /** `validate`, the part about message handlers. */
  method ValidateMessages(urls: seq<string>) returns (errors: seq<Error>)
    ensures errors == [] <==> forall i, j :: 0 <= i < j < |urls| ==> urls[i] != urls[j]
  {
    errors := [];
    var seen: set<string> := {};
    for n := 0 to |urls|
      invariant forall u :: u in seen <==> u in urls[..n]
      invariant errors == [] <==> forall i, j :: 0 <= i < j < n ==> urls[i] != urls[j]
    {
      assert urls[..n + 1] == urls[..n] + [urls[n]];
      if urls[n] in seen {
        errors := errors + [DuplicateUrl(urls[n])];
        var i :| 0 <= i < n && urls[i] == urls[n];
      }
      seen := seen + {urls[n]};
    }
  }
}
