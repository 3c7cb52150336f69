/** The bounded occurrence prefix of a 1-safe profile: a breadth-first search over markings. */
module Unfolding {
  import opened Ids

  /** `catalysts` is None where the record holds no list. */
  datatype Edge = Edge(
    inputs: set<Id>, authority: set<Id>, evidence: set<Id>, inhibitors: set<Id>,
    catalysts: Option<seq<set<Id>>>, uncatalyzed: bool, outputs: set<Id>)

  type Network = map<Id, Edge>

  // ----- the firing rule

  predicate Enabled(edge: Edge, marking: set<Id>)
  {
    && edge.inputs <= marking && edge.authority <= marking && edge.evidence <= marking
    && edge.inhibitors * marking == {}
    && edge.catalysts.Some?
    && (edge.uncatalyzed
        || (edge.catalysts.value != []
            && forall i :: 0 <= i < |edge.catalysts.value| ==> edge.catalysts.value[i] * marking != {}))
  }

  /** Place by place: what must be marked, what must not be, and that every catalyst clause has a marked place. */
  lemma EnabledMeans(edge: Edge, marking: set<Id>)
    ensures Enabled(edge, marking) <==>
            && (forall p :: p in edge.inputs || p in edge.authority || p in edge.evidence ==> p in marking)
            && (forall p :: p in edge.inhibitors ==> p !in marking)
            && edge.catalysts.Some?
            && (!edge.uncatalyzed ==> |edge.catalysts.value| > 0)
            && (!edge.uncatalyzed ==> forall i :: 0 <= i < |edge.catalysts.value| ==> exists p :: p in edge.catalysts.value[i] && p in marking)
  {
    DisjointByMembers(edge.inhibitors, marking);
    assert edge.inputs <= marking && edge.authority <= marking && edge.evidence <= marking
      <==> forall p :: p in edge.inputs || p in edge.authority || p in edge.evidence ==> p in marking by {
      if forall p :: p in edge.inputs || p in edge.authority || p in edge.evidence ==> p in marking {
        assert edge.inputs <= marking && edge.authority <= marking && edge.evidence <= marking;
      }
    }
    if edge.catalysts.Some? {
      forall i | 0 <= i < |edge.catalysts.value|
        ensures edge.catalysts.value[i] * marking != {} <==> exists p :: p in edge.catalysts.value[i] && p in marking
      {
        DisjointByMembers(edge.catalysts.value[i], marking);
      }
    }
  }

  /** Enabled, and no output that is not also consumed is already marked. */
  predicate Fires(edge: Edge, marking: set<Id>)
  {
    Enabled(edge, marking) && (edge.outputs - edge.inputs) * marking == {}
  }

  function Next(edge: Edge, marking: set<Id>): set<Id>
  {
    (marking - edge.inputs) + edge.outputs
  }

  /** The tokens after an ordinary firing that moves one token per input and output. */
  function Tokens(edge: Edge, marking: set<Id>): multiset<Id>
  {
    multiset(marking) - multiset(edge.inputs) + multiset(edge.outputs)
  }

  /** The extra check is 1-safety: it holds iff no place gets two tokens, and then sets and tokens agree. */
  lemma ContactCheckIsOneSafety(edge: Edge, marking: set<Id>)
    requires Enabled(edge, marking)
    ensures Fires(edge, marking) <==> forall p :: Tokens(edge, marking)[p] <= 1
    ensures Fires(edge, marking) ==> Tokens(edge, marking) == multiset(Next(edge, marking))
  {
    forall p ensures Tokens(edge, marking)[p]
      == (if p in marking && p !in edge.inputs then 1 else 0) + (if p in edge.outputs then 1 else 0)
    {
    }
    if Fires(edge, marking) {
      forall p ensures Tokens(edge, marking)[p] == multiset(Next(edge, marking))[p] {
        assert p !in (edge.outputs - edge.inputs) * marking;
      }
    } else {
      var p :| p in edge.outputs && p !in edge.inputs && p in marking;
      assert Tokens(edge, marking)[p] == 2;
    }
  }

  /** The marking after a firing sequence, if every step of it can fire. */
  function After(net: Network, initial: set<Id>, history: seq<Id>): Option<set<Id>>
  {
    if history == [] then Some(initial)
    else
      var id := history[|history| - 1];
      var before := After(net, initial, history[..|history| - 1]);
      if before.Some? && id in net && Fires(net[id], before.value) then Some(Next(net[id], before.value)) else None
  }

  lemma AfterStep(net: Network, initial: set<Id>, history: seq<Id>, marking: set<Id>, id: Id)
    requires After(net, initial, history) == Some(marking) && id in net && Fires(net[id], marking)
    ensures After(net, initial, history + [id]) == Some(Next(net[id], marking))
  {
    assert (history + [id])[..|history|] == history;
  }

  ghost predicate Reachable(net: Network, initial: set<Id>, marking: set<Id>)
  {
    exists history :: After(net, initial, history) == Some(marking)
  }

  /** A set of markings that contains the initial one and is closed under firing contains every reachable marking. */
  lemma {:induction false} ClosedContainsReachable(net: Network, initial: set<Id>, seen: set<set<Id>>, history: seq<Id>)
    requires initial in seen && forall m :: m in seen ==> Expanded(net, seen, m)
    ensures After(net, initial, history).Some? ==> After(net, initial, history).value in seen
  {
    if history != [] {
      ClosedContainsReachable(net, initial, seen, history[..|history| - 1]);
    }
  }

  // ----- the search

  datatype Entry = Entry(marking: set<Id>, history: seq<Id>)

  /** Its identifier is a digest of `history`; the causal prefix is all of it but the last step. */
  datatype Event = Event(history: seq<Id>, marking: set<Id>)

  datatype Choice = Choice(id: Id, marking: set<Id>)

  datatype Search = Search(queue: seq<Entry>, seen: set<set<Id>>, events: seq<Event>, alternatives: map<seq<Id>, seq<Id>>)

  predicate Queued(queue: seq<Entry>, marking: set<Id>)
  {
    exists i :: 0 <= i < |queue| && queue[i].marking == marking
  }

  predicate Expanded(net: Network, seen: set<set<Id>>, marking: set<Id>)
  {
    forall id :: id in net && Fires(net[id], marking) ==> Next(net[id], marking) in seen
  }

  predicate IsChoice(net: Network, marking: set<Id>, c: Choice)
  {
    c.id in net && Fires(net[c.id], marking) && c.marking == Next(net[c.id], marking)
  }

  predicate Chosen(choices: seq<Choice>, id: Id)
  {
    exists i :: 0 <= i < |choices| && choices[i].id == id
  }

  predicate Distinct(choices: seq<Choice>)
  {
    forall i, j :: 0 <= i < j < |choices| ==> choices[i].id != choices[j].id
  }

  predicate AreChoices(net: Network, marking: set<Id>, choices: seq<Choice>)
  {
    && (forall i :: 0 <= i < |choices| ==> IsChoice(net, marking, choices[i]))
    && Distinct(choices)
    && (forall id :: id in net && Fires(net[id], marking) ==> Chosen(choices, id))
  }

  function ChoiceIds(choices: seq<Choice>): seq<Id>
  {
    seq(|choices|, i requires 0 <= i < |choices| => choices[i].id)
  }

  lemma ChooseOneMore(choices: seq<Choice>, choice: Choice)
    requires Distinct(choices) && !Chosen(choices, choice.id)
    ensures Distinct(choices + [choice])
    ensures forall id :: Chosen(choices + [choice], id) <==> Chosen(choices, id) || id == choice.id
  {
    var more := choices + [choice];
    assert more[|choices|] == choice;
    assert forall i :: 0 <= i < |choices| ==> more[i] == choices[i];
  }

  /** The choices among the first i transformations of the order. */
  ghost predicate ChoicesSoFar(net: Network, marking: set<Id>, order: seq<Id>, i: nat, choices: seq<Choice>)
    requires i <= |order|
  {
    && (forall k :: 0 <= k < |choices| ==> IsChoice(net, marking, choices[k])) && Distinct(choices)
    && (forall j :: 0 <= j < i && order[j] in net && Fires(net[order[j]], marking) ==> Chosen(choices, order[j]))
    && forall j :: i <= j < |order| ==> !Chosen(choices, order[j])
  }

  lemma TakeChoice(net: Network, marking: set<Id>, order: seq<Id>, i: nat, choices: seq<Choice>, choice: Choice)
    requires i < |order| && NoDuplicates(order) && ChoicesSoFar(net, marking, order, i, choices)
    requires choice.id == order[i] && IsChoice(net, marking, choice)
    ensures ChoicesSoFar(net, marking, order, i + 1, choices + [choice])
  {
    ChooseOneMore(choices, choice);
  }

  lemma AllChosen(net: Network, marking: set<Id>, order: seq<Id>, choices: seq<Choice>)
    requires ChoicesSoFar(net, marking, order, |order|, choices) && forall id :: id in net <==> id in order
    ensures AreChoices(net, marking, choices)
  {
    forall id | id in net && Fires(net[id], marking) ensures Chosen(choices, id) {
      var j :| 0 <= j < |order| && order[j] == id;
    }
  }

  method FindChoices(net: Network, marking: set<Id>) returns (choices: seq<Choice>)
    ensures AreChoices(net, marking, choices)
  {
    choices := [];
    var order := Sorted(net.Keys);
    SortedHasNoDuplicates(order);
    for i := 0 to |order|
      invariant ChoicesSoFar(net, marking, order, i, choices)
    {
      var id := order[i];
      assert id in order;
      if Fires(net[id], marking) {
        var choice := Choice(id, Next(net[id], marking));
        TakeChoice(net, marking, order, i, choices, choice);
        choices := choices + [choice];
      }
    }
    AllChosen(net, marking, order, choices);
  }

  function EventsOf(history: seq<Id>, choices: seq<Choice>): seq<Event>
  {
    seq(|choices|, i requires 0 <= i < |choices| => Event(history + [choices[i].id], choices[i].marking))
  }

  function MarkingsOf(choices: seq<Choice>): set<set<Id>>
  {
    set i | 0 <= i < |choices| :: choices[i].marking
  }

  /** An entry for one of the choices made after the history. */
  predicate Follows(history: seq<Id>, choices: seq<Choice>, entry: Entry)
  {
    exists j :: 0 <= j < |choices| && entry == Entry(choices[j].marking, history + [choices[j].id])
  }

  /** What recording these choices adds: every event, and a queue entry for each marking not seen before. */
  ghost predicate Records(history: seq<Id>, choices: seq<Choice>, before: Search, after: Search)
  {
    && after.alternatives == before.alternatives
    && after.events == before.events + EventsOf(history, choices)
    && after.seen == before.seen + MarkingsOf(choices)
    && before.queue <= after.queue && |after.queue| <= |before.queue| + |choices|
    && (forall i :: |before.queue| <= i < |after.queue| ==> Follows(history, choices, after.queue[i]))
    && (forall i, j :: |before.queue| <= i < j < |after.queue| ==> after.queue[i].history != after.queue[j].history)
    && (forall i :: 0 <= i < |choices| ==> choices[i].marking in before.seen || Queued(after.queue, choices[i].marking))
  }

  lemma RecordNothing(history: seq<Id>, s: Search)
    ensures Records(history, [], s, s)
  {
  }

  lemma FollowsMore(history: seq<Id>, choices: seq<Choice>, choice: Choice, entry: Entry)
    requires Follows(history, choices, entry)
    ensures Follows(history, choices + [choice], entry)
  {
    var j :| 0 <= j < |choices| && entry == Entry(choices[j].marking, history + [choices[j].id]);
    assert (choices + [choice])[j] == choices[j];
  }

  function Record(history: seq<Id>, choice: Choice, s: Search): Search
  {
    var event := Event(history + [choice.id], choice.marking);
    s.(queue := if choice.marking in s.seen then s.queue else s.queue + [Entry(choice.marking, event.history)],
       seen := s.seen + {choice.marking},
       events := s.events + [event])
  }

  lemma RecordOneMore(history: seq<Id>, choices: seq<Choice>, choice: Choice, before: Search, middle: Search)
    requires Records(history, choices, before, middle)
    requires forall i :: 0 <= i < |choices| ==> choices[i].id != choice.id
    ensures Records(history, choices + [choice], before, Record(history, choice, middle))
  {
    var all, after := choices + [choice], Record(history, choice, middle);
    assert EventsOf(history, all) == EventsOf(history, choices) + [Event(history + [choice.id], choice.marking)];
    assert MarkingsOf(all) == MarkingsOf(choices) + {choice.marking} by {
      assert all[|choices|] == choice;
      assert forall i :: 0 <= i < |choices| ==> all[i] == choices[i];
    }
    forall i | |before.queue| <= i < |after.queue| ensures Follows(history, all, after.queue[i]) {
      if i < |middle.queue| {
        FollowsMore(history, choices, choice, after.queue[i]);
      } else {
        assert all[|choices|] == choice;
      }
    }
    forall i, j | |before.queue| <= i < j < |after.queue| ensures after.queue[i].history != after.queue[j].history {
      if j == |middle.queue| {
        var k :| 0 <= k < |choices| && middle.queue[i] == Entry(choices[k].marking, history + [choices[k].id]);
        assert (history + [choices[k].id])[|history|] != (history + [choice.id])[|history|];
      }
    }
    forall i | 0 <= i < |all| ensures all[i].marking in before.seen || Queued(after.queue, all[i].marking) {
      if i < |choices| && all[i].marking !in before.seen {
        StillQueued(middle.queue, after.queue, all[i].marking);
      } else if choice.marking !in before.seen {
        LastQueued(history, choices, choice, before, middle);
      }
    }
  }

  lemma StillQueued(queue: seq<Entry>, longer: seq<Entry>, marking: set<Id>)
    requires queue <= longer && Queued(queue, marking)
    ensures Queued(longer, marking)
  {
    var i :| 0 <= i < |queue| && queue[i].marking == marking;
    assert longer[i] == queue[i];
  }

  lemma LastQueued(history: seq<Id>, choices: seq<Choice>, choice: Choice, before: Search, middle: Search)
    requires Records(history, choices, before, middle) && choice.marking !in before.seen
    ensures Queued(Record(history, choice, middle).queue, choice.marking)
  {
    var after := Record(history, choice, middle);
    if choice.marking in middle.seen {
      var j :| 0 <= j < |choices| && choices[j].marking == choice.marking;
      StillQueued(middle.queue, after.queue, choice.marking);
    } else {
      assert after.queue[|middle.queue|].marking == choice.marking;
    }
  }

  // ----- the invariant

  ghost predicate GoodEntries(net: Network, initial: set<Id>, s: Search)
  {
    && (forall i :: 0 <= i < |s.queue| ==>
          After(net, initial, s.queue[i].history) == Some(s.queue[i].marking) && s.queue[i].history !in s.alternatives)
    && (forall i, j :: 0 <= i < j < |s.queue| ==> s.queue[i].history != s.queue[j].history)
  }

  /** Everything queued or explored was reached from something explored. */
  ghost predicate Rooted(s: Search)
  {
    && (forall i :: 0 <= i < |s.queue| ==> RootedAt(s, s.queue[i].history))
    && (forall h :: h in s.alternatives ==> RootedAt(s, h))
  }

  predicate RootedAt(s: Search, history: seq<Id>)
  {
    history == [] || history[..|history| - 1] in s.alternatives
  }

  ghost predicate GoodEvents(net: Network, initial: set<Id>, s: Search)
  {
    && (forall i :: 0 <= i < |s.events| ==> IsEvent(net, initial, s, s.events[i]))
    && (forall i, j :: 0 <= i < j < |s.events| ==> s.events[i].history != s.events[j].history)
  }

  /** The causal prefix has been explored and, followed by the transformation, fires to the event's marking. */
  ghost predicate IsEvent(net: Network, initial: set<Id>, s: Search, e: Event)
  {
    e.history != [] && e.history[..|e.history| - 1] in s.alternatives && After(net, initial, e.history) == Some(e.marking)
  }

  ghost predicate SeenIsRecorded(initial: set<Id>, s: Search)
  {
    forall m :: m in s.seen <==> m == initial || exists i :: 0 <= i < |s.events| && s.events[i].marking == m
  }

  ghost predicate Frontier(net: Network, s: Search)
  {
    forall m :: m in s.seen ==> Queued(s.queue, m) || Expanded(net, s.seen, m)
  }

  /** The explored histories list exactly the transformations that can fire there. */
  ghost predicate GoodAlternatives(net: Network, initial: set<Id>, alternatives: map<seq<Id>, seq<Id>>)
  {
    forall h :: h in alternatives ==>
      && After(net, initial, h).Some?
      && NoDuplicates(alternatives[h])
      && forall id :: id in alternatives[h] <==> id in net && Fires(net[id], After(net, initial, h).value)
  }

  /** Explores the head of the queue: moves its history to the alternatives. */
  function Explore(s: Search, choices: seq<Choice>): Search
    requires s.queue != []
  {
    s.(queue := s.queue[1..], alternatives := s.alternatives[s.queue[0].history := ChoiceIds(choices)])
  }

  lemma ExploreKeepsAlternatives(net: Network, initial: set<Id>, s: Search, choices: seq<Choice>)
    requires s.queue != [] && GoodEntries(net, initial, s) && GoodAlternatives(net, initial, s.alternatives)
    requires AreChoices(net, s.queue[0].marking, choices)
    ensures GoodAlternatives(net, initial, Explore(s, choices).alternatives)
  {
    var ids, m := ChoiceIds(choices), s.queue[0].marking;
    forall id ensures id in ids <==> id in net && Fires(net[id], m) {
      if id in net && Fires(net[id], m) {
        var i :| 0 <= i < |choices| && choices[i].id == id;
        assert ids[i] == id;
      }
    }
  }

  lemma EntriesKept(net: Network, initial: set<Id>, s: Search, choices: seq<Choice>, part: seq<Choice>, after: Search)
    requires s.queue != [] && GoodEntries(net, initial, s) && Rooted(s)
    requires AreChoices(net, s.queue[0].marking, choices) && part <= choices
    requires Records(s.queue[0].history, part, Explore(s, choices), after)
    ensures GoodEntries(net, initial, after)
  {
    var h, n := s.queue[0].history, |s.queue| - 1;
    forall i | 0 <= i < n ensures after.queue[i] == s.queue[i + 1] {
      assert Explore(s, choices).queue[i] == s.queue[i + 1];
    }
    forall i | n <= i < |after.queue|
      ensures After(net, initial, after.queue[i].history) == Some(after.queue[i].marking)
      ensures after.queue[i].history != [] && after.queue[i].history[..|after.queue[i].history| - 1] == h
      ensures after.queue[i].history !in after.alternatives
    {
      var j :| 0 <= j < |part| && after.queue[i] == Entry(part[j].marking, h + [part[j].id]);
      assert part[j] == choices[j];
      AfterStep(net, initial, h, s.queue[0].marking, part[j].id);
      assert (h + [part[j].id])[..|h|] == h;
      NewHistoryIsFresh(s, choices, h + [part[j].id]);
    }
    forall i, j | 0 <= i < j < |after.queue| ensures after.queue[i].history != after.queue[j].history {
      if i < n <= j {
        assert RootedAt(s, s.queue[i + 1].history);
      }
    }
  }

  /** A history that extends the head of the queue has not been explored. */
  lemma NewHistoryIsFresh(s: Search, choices: seq<Choice>, history: seq<Id>)
    requires s.queue != [] && Rooted(s) && s.queue[0].history !in s.alternatives
    requires history != [] && history[..|history| - 1] == s.queue[0].history
    ensures history !in Explore(s, choices).alternatives
  {
    assert history in s.alternatives ==> RootedAt(s, history);
  }

  lemma RootsKept(s: Search, choices: seq<Choice>, part: seq<Choice>, after: Search)
    requires s.queue != [] && Rooted(s) && part <= choices
    requires Records(s.queue[0].history, part, Explore(s, choices), after)
    ensures Rooted(after)
  {
    var h, n := s.queue[0].history, |s.queue| - 1;
    assert after.alternatives.Keys == s.alternatives.Keys + {h};
    forall i | 0 <= i < |after.queue| ensures RootedAt(after, after.queue[i].history) {
      if i < n {
        assert after.queue[i] == Explore(s, choices).queue[i] == s.queue[i + 1];
        assert RootedAt(s, s.queue[i + 1].history);
      } else {
        var j :| 0 <= j < |part| && after.queue[i] == Entry(part[j].marking, h + [part[j].id]);
        assert (h + [part[j].id])[..|h|] == h;
      }
    }
    forall g | g in after.alternatives ensures RootedAt(after, g) {
      assert g == h || RootedAt(s, g);
      assert RootedAt(s, s.queue[0].history);
    }
  }

  /** What was recorded stays recorded, under earlier histories. */
  lemma OldEventKept(net: Network, initial: set<Id>, s: Search, choices: seq<Choice>, part: seq<Choice>, after: Search, i: nat)
    requires s.queue != [] && GoodEntries(net, initial, s) && GoodEvents(net, initial, s) && i < |s.events|
    requires Records(s.queue[0].history, part, Explore(s, choices), after)
    ensures i < |after.events| && after.events[i] == s.events[i] && IsEvent(net, initial, after, after.events[i])
    ensures after.events[i].history[..|after.events[i].history| - 1] != s.queue[0].history
  {
    assert after.events[i] == s.events[i];
    assert IsEvent(net, initial, s, s.events[i]);
    assert after.alternatives.Keys == s.alternatives.Keys + {s.queue[0].history};
  }

  lemma RecordedEvent(h: seq<Id>, part: seq<Choice>, before: Search, after: Search, i: nat)
    requires Records(h, part, before, after) && |before.events| <= i < |after.events|
    ensures i - |before.events| < |part|
    ensures after.events[i] == Event(h + [part[i - |before.events|].id], part[i - |before.events|].marking)
  {
  }

  lemma NewEventKept(net: Network, initial: set<Id>, s: Search, choices: seq<Choice>, part: seq<Choice>, after: Search, i: nat)
    requires s.queue != [] && GoodEntries(net, initial, s)
    requires AreChoices(net, s.queue[0].marking, choices) && part <= choices
    requires Records(s.queue[0].history, part, Explore(s, choices), after) && |s.events| <= i < |after.events|
    ensures i - |s.events| < |part| && after.events[i].history == s.queue[0].history + [part[i - |s.events|].id]
    ensures IsEvent(net, initial, after, after.events[i])
    ensures after.events[i].history[..|after.events[i].history| - 1] == s.queue[0].history
  {
    var h, n := s.queue[0].history, |s.events|;
    var c := part[i - n];
    RecordedEvent(h, part, Explore(s, choices), after, i);
    assert c == choices[i - n];
    AfterStep(net, initial, h, s.queue[0].marking, c.id);
    assert h in after.alternatives;
    assert (h + [c.id])[..|h|] == h;
  }

  /** Different choices of one marking extend its history differently. */
  lemma NewEventsDiffer(net: Network, marking: set<Id>, h: seq<Id>, choices: seq<Choice>, part: seq<Choice>, i: nat, j: nat)
    requires AreChoices(net, marking, choices) && part <= choices && i < j < |part|
    ensures h + [part[i].id] != h + [part[j].id]
  {
    assert part[i] == choices[i] && part[j] == choices[j];
    assert (h + [part[i].id])[|h|] != (h + [part[j].id])[|h|];
  }

  lemma EventsKept(net: Network, initial: set<Id>, s: Search, choices: seq<Choice>, part: seq<Choice>, after: Search)
    requires s.queue != [] && GoodEntries(net, initial, s) && GoodEvents(net, initial, s)
    requires AreChoices(net, s.queue[0].marking, choices) && part <= choices
    requires Records(s.queue[0].history, part, Explore(s, choices), after)
    ensures GoodEvents(net, initial, after)
  {
    var h, n := s.queue[0].history, |s.events|;
    forall i | 0 <= i < |after.events| ensures IsEvent(net, initial, after, after.events[i]) {
      if i < n {
        OldEventKept(net, initial, s, choices, part, after, i);
      } else {
        NewEventKept(net, initial, s, choices, part, after, i);
      }
    }
    forall i, j | 0 <= i < j < |after.events| ensures after.events[i].history != after.events[j].history {
      if j < n {
        OldEventKept(net, initial, s, choices, part, after, i);
        OldEventKept(net, initial, s, choices, part, after, j);
      } else {
        NewEventKept(net, initial, s, choices, part, after, j);
        if i < n {
          OldEventKept(net, initial, s, choices, part, after, i);
        } else {
          NewEventKept(net, initial, s, choices, part, after, i);
          NewEventsDiffer(net, s.queue[0].marking, h, choices, part, i - n, j - n);
        }
      }
    }
  }

  lemma SeenKept(initial: set<Id>, history: seq<Id>, choices: seq<Choice>, before: Search, after: Search)
    requires SeenIsRecorded(initial, before) && Records(history, choices, before, after)
    ensures SeenIsRecorded(initial, after)
  {
    var n, all := |before.events|, after.events;
    forall i | 0 <= i < |all| ensures all[i].marking in after.seen {
      if i < n {
        assert all[i] == before.events[i];
      } else {
        assert all[i] == EventsOf(history, choices)[i - n];
        assert choices[i - n].marking in MarkingsOf(choices);
      }
    }
    forall m | m in after.seen && m != initial ensures exists i :: 0 <= i < |all| && all[i].marking == m {
      if m in before.seen {
        var i :| 0 <= i < n && before.events[i].marking == m;
        assert all[i].marking == m;
      } else {
        var j :| 0 <= j < |choices| && choices[j].marking == m;
        assert all[n + j] == EventsOf(history, choices)[j];
      }
    }
  }

  /** With all choices recorded, the head of the queue is expanded. */
  lemma FrontierKept(net: Network, s: Search, choices: seq<Choice>, after: Search)
    requires s.queue != [] && Frontier(net, s) && AreChoices(net, s.queue[0].marking, choices)
    requires Records(s.queue[0].history, choices, Explore(s, choices), after)
    ensures Frontier(net, after)
  {
    var head := s.queue[0].marking;
    forall m | m in after.seen ensures Queued(after.queue, m) || Expanded(net, after.seen, m) {
      if m == head {
        forall id | id in net && Fires(net[id], m) ensures Next(net[id], m) in after.seen {
          var i :| 0 <= i < |choices| && choices[i].id == id;
          assert choices[i].marking in MarkingsOf(choices);
        }
      } else if m in s.seen {
        if Queued(s.queue, m) {
          var i :| 0 <= i < |s.queue| && s.queue[i].marking == m;
          assert after.queue[i - 1] == Explore(s, choices).queue[i - 1] == s.queue[i];
        }
      } else {
        var i :| 0 <= i < |choices| && choices[i].marking == m;
      }
    }
  }

  // ----- _bounded_one_safe_unfolding

  datatype Status = ProfileNotDeclared | BudgetExhausted | Complete

  lemma RecordNext(history: seq<Id>, choices: seq<Choice>, i: nat, start: Search, s: Search)
    requires i < |choices| && Distinct(choices) && Records(history, choices[..i], start, s)
    ensures Records(history, choices[..i + 1], start, Record(history, choices[i], s))
  {
    RecordOneMore(history, choices[..i], choices[i], start, s);
    TakeOneMore(choices, i);
  }

  /** Records the choices in order until the event budget is used up. */
  method RecordAll(history: seq<Id>, choices: seq<Choice>, maximum: nat, start: Search)
    returns (s: Search, count: nat, exhausted: bool)
    requires |start.events| <= maximum
    requires Distinct(choices)
    ensures count <= |choices| && Records(history, choices[..count], start, s)
    ensures |s.events| == |start.events| + count <= maximum
    ensures exhausted <==> count < |choices|
    ensures exhausted ==> |s.events| == maximum
  {
    s, exhausted := start, false;
    RecordNothing(history, start);
    assert choices[..0] == [];
    for i := 0 to |choices|
      invariant Records(history, choices[..i], start, s)
      invariant |s.events| == |start.events| + i <= maximum
    {
      if |s.events| >= maximum {
        return s, i, true;
      }
      RecordNext(history, choices, i, start, s);
      s := Record(history, choices[i], s);
    }
    count := |choices|;
  }

  ghost predicate Sound(net: Network, initial: set<Id>, s: Search)
  {
    && GoodEntries(net, initial, s) && Rooted(s) && GoodEvents(net, initial, s)
    && GoodAlternatives(net, initial, s.alternatives) && SeenIsRecorded(initial, s)
  }

  lemma StartIsSound(net: Network, initial: set<Id>)
    ensures Sound(net, initial, Search([Entry(initial, [])], {initial}, [], map[]))
    ensures Frontier(net, Search([Entry(initial, [])], {initial}, [], map[]))
  {
    var s := Search([Entry(initial, [])], {initial}, [], map[]);
    assert s.queue[0].marking == initial;
  }

  lemma StepKeepsSound(net: Network, initial: set<Id>, s: Search, choices: seq<Choice>, part: seq<Choice>, after: Search)
    requires s.queue != [] && Sound(net, initial, s)
    requires AreChoices(net, s.queue[0].marking, choices) && part <= choices
    requires Records(s.queue[0].history, part, Explore(s, choices), after)
    ensures Sound(net, initial, after)
  {
    EntriesKept(net, initial, s, choices, part, after);
    RootsKept(s, choices, part, after);
    EventsKept(net, initial, s, choices, part, after);
    ExploreKeepsAlternatives(net, initial, s, choices);
    SeenKept(initial, s.queue[0].history, part, Explore(s, choices), after);
  }

  lemma EmptyQueueIsComplete(net: Network, initial: set<Id>, s: Search)
    requires s.queue == [] && Frontier(net, s) && Sound(net, initial, s)
    ensures forall m :: Reachable(net, initial, m) <==> m in s.seen
  {
    forall m ensures Reachable(net, initial, m) <==> m in s.seen {
      if Reachable(net, initial, m) {
        var history :| After(net, initial, history) == Some(m);
        ClosedContainsReachable(net, initial, s.seen, history);
      } else if m in s.seen {
        SeenIsReachable(net, initial, s, m);
      }
    }
  }

  lemma SeenIsReachable(net: Network, initial: set<Id>, s: Search, m: set<Id>)
    requires Sound(net, initial, s) && m in s.seen
    ensures Reachable(net, initial, m)
  {
    if m == initial {
      assert After(net, initial, []) == Some(m);
    } else {
      var i :| 0 <= i < |s.events| && s.events[i].marking == m;
      assert IsEvent(net, initial, s, s.events[i]);
    }
  }

  function Prefix(e: Event): seq<Id>
  {
    if e.history == [] then [] else e.history[..|e.history| - 1]
  }

  /** Every event ends a firing sequence in its marking, and no two events share an identifier. */
  ghost predicate EventsFire(net: Network, initial: set<Id>, events: seq<Event>)
  {
    && (forall i :: 0 <= i < |events| ==> events[i].history != [] && After(net, initial, events[i].history) == Some(events[i].marking))
    && (forall i, j :: 0 <= i < j < |events| ==> events[i].history != events[j].history)
  }

  /** The transformations that can fire after a history. */
  function FiringAfter(net: Network, initial: set<Id>, history: seq<Id>): set<Id>
  {
    var marking := After(net, initial, history);
    if marking == None then {} else set id | id in net && Fires(net[id], marking.value)
  }

  /** A conflict lists the several transformations that can fire after its prefix; no event's prefix with several is left out. */
  ghost predicate ConflictsAre(net: Network, initial: set<Id>, events: seq<Event>, conflicts: map<seq<Id>, seq<Id>>)
  {
    && (forall h :: h in conflicts ==>
          |conflicts[h]| > 1 && NoDuplicates(conflicts[h])
          && forall id :: id in conflicts[h] <==> id in FiringAfter(net, initial, h))
    && (forall i :: 0 <= i < |events| && |FiringAfter(net, initial, Prefix(events[i]))| > 1 ==> Prefix(events[i]) in conflicts)
  }

  function Conflicts(s: Search): map<seq<Id>, seq<Id>>
  {
    map h | h in s.alternatives && |s.alternatives[h]| > 1 :: s.alternatives[h]
  }

  lemma ReportIsSound(net: Network, initial: set<Id>, s: Search)
    requires Sound(net, initial, s)
    ensures EventsFire(net, initial, s.events) && ConflictsAre(net, initial, s.events, Conflicts(s))
  {
    forall i | 0 <= i < |s.events|
      ensures s.events[i].history != [] && After(net, initial, s.events[i].history) == Some(s.events[i].marking)
      ensures |FiringAfter(net, initial, Prefix(s.events[i]))| > 1 ==> Prefix(s.events[i]) in Conflicts(s)
    {
      assert IsEvent(net, initial, s, s.events[i]);
      var h := Prefix(s.events[i]);
      NoDuplicatesCardinality(s.alternatives[h], FiringAfter(net, initial, h));
    }
  }

  /**
   * Whatever the verdict, the events are firing sequences and the conflicts are choices. When the
   * search completes, the initial marking and the event markings are exactly the reachable markings.
   */
  method Unfold(net: Network, initial: set<Id>, declared: bool, maximum: int)
    returns (status: Status, events: seq<Event>, conflicts: map<seq<Id>, seq<Id>>)
    ensures EventsFire(net, initial, events) && ConflictsAre(net, initial, events, conflicts)
    ensures status == ProfileNotDeclared <==> !declared
    ensures |events| <= (if maximum < 1 then 0 else maximum)
    ensures status == BudgetExhausted ==> |events| == if maximum < 1 then 0 else maximum
    ensures status == Complete ==> forall m ::
      Reachable(net, initial, m) <==> m == initial || exists i :: 0 <= i < |events| && events[i].marking == m
  {
    if !declared {
      return ProfileNotDeclared, [], map[];
    }
    if maximum < 1 {
      return BudgetExhausted, [], map[];
    }
    var s := Search([Entry(initial, [])], {initial}, [], map[]);
    StartIsSound(net, initial);
    status := Complete;
    while s.queue != []
      invariant Sound(net, initial, s) && Frontier(net, s) && status == Complete
      invariant |s.events| <= maximum
      decreases maximum - |s.events| + |s.queue|
    {
      var head := s.queue[0];
      var choices := FindChoices(net, head.marking);
      var next, count, exhausted := RecordAll(head.history, choices, maximum, Explore(s, choices));
      StepKeepsSound(net, initial, s, choices, choices[..count], next);
      if exhausted {
        ReportIsSound(net, initial, next);
        return BudgetExhausted, next.events, Conflicts(next);
      }
      assert choices[..count] == choices;
      FrontierKept(net, s, choices, next);
      s := next;
    }
    EmptyQueueIsComplete(net, initial, s);
    ReportIsSound(net, initial, s);
    events, conflicts := s.events, Conflicts(s);
  }
}
