/** The result aggregator of `_update_results`: the set of (domain, hash) pairs already counted and,
    per hash, its count and the domains that showed it, in first-seen order. Python's dict keeps
    its keys in insertion order, which the report relies on; `order` holds that order. */
module Aggregation {
  import opened Wrappers

  datatype HashGroup = HashGroup(count: int, domains: seq<string>)

  datatype Tally = Tally(order: seq<string>, groups: map<string, HashGroup>, seen: set<(string, string)>)

  const EMPTY_TALLY: Tally := Tally([], map[], {})

  /** Python truthiness of a display hash: present and not the empty string. */
  predicate Truthy(hash: Option<string>) {
    hash.Some? && hash.value != ""
  }

  /** `order` lists the group keys, once each. */
  ghost predicate OrderInv(t: Tally) {
    && (forall i, j :: 0 <= i < j < |t.order| ==> t.order[i] != t.order[j])
    && (forall h :: h in t.groups <==> h in t.order)
  }

  /** Every group has a non-empty key, its count is the length of its domain list, and a domain
      appears at most once in it. */
  ghost predicate GroupsInv(t: Tally) {
    && (forall h :: h in t.groups ==> h != "" && t.groups[h].count == |t.groups[h].domains| >= 1)
    && (forall h, i, j :: h in t.groups && 0 <= i < j < |t.groups[h].domains| ==>
          t.groups[h].domains[i] != t.groups[h].domains[j])
  }

  /** The seen set is exactly the recorded (domain, hash) pairs. */
  ghost predicate SeenInv(t: Tally) {
    && (forall p :: p in t.seen ==> p.1 in t.groups && p.0 in t.groups[p.1].domains)
    && (forall h, d :: h in t.groups && d in t.groups[h].domains ==> (d, h) in t.seen)
  }

  /** What `_update_results` maintains. */
  ghost predicate Inv(t: Tally) {
    OrderInv(t) && GroupsInv(t) && SeenInv(t)
  }

  /** `_update_results(domain, hash)`: nothing happens for a falsy hash or a pair already seen;
      otherwise the pair is marked seen, the group is created (count 0) if missing, its count goes
      up by one and the domain is appended. */
  function Record(t: Tally, domain: string, hash: Option<string>): Tally {
    if !Truthy(hash) || (domain, hash.value) in t.seen then t
    else
      var h := hash.value;
      var g := if h in t.groups then t.groups[h] else HashGroup(0, []);
      Tally(if h in t.groups then t.order else t.order + [h],
            t.groups[h := HashGroup(g.count + 1, g.domains + [domain])],
            t.seen + {(domain, h)})
  }

  lemma EmptyTallyInv()
    ensures Inv(EMPTY_TALLY)
  {
  }

  lemma RecordKeepsGroupsInv(t: Tally, domain: string, hash: Option<string>)
    requires GroupsInv(t) && SeenInv(t)
    ensures GroupsInv(Record(t, domain, hash))
  {
    if Truthy(hash) && (domain, hash.value) !in t.seen {
      var h := hash.value;
      var r := Record(t, domain, hash);
      if h in t.groups {
        assert domain !in t.groups[h].domains;
      }
      forall k, i, j | k in r.groups && 0 <= i < j < |r.groups[k].domains|
        ensures r.groups[k].domains[i] != r.groups[k].domains[j]
      {
        if k == h && h in t.groups && j == |r.groups[k].domains| - 1 {
          assert t.groups[h].domains[i] in t.groups[h].domains;
        }
      }
    }
  }

  lemma RecordKeepsSeenInv(t: Tally, domain: string, hash: Option<string>)
    requires SeenInv(t)
    ensures SeenInv(Record(t, domain, hash))
  {
  }

  /** Recording keeps the aggregator's invariant. */
  lemma RecordKeepsInv(t: Tally, domain: string, hash: Option<string>)
    requires Inv(t)
    ensures Inv(Record(t, domain, hash))
  {
    RecordKeepsGroupsInv(t, domain, hash);
    RecordKeepsSeenInv(t, domain, hash);
  }

  /** Recording a pair a second time changes nothing. */
  lemma RecordIdempotent(t: Tally, domain: string, hash: Option<string>)
    ensures Record(Record(t, domain, hash), domain, hash) == Record(t, domain, hash)
  {
  }

  /** A recording call changes the state exactly when the hash is truthy and the pair is new. */
  lemma RecordChangesIffNew(t: Tally, domain: string, hash: Option<string>)
    ensures Record(t, domain, hash) != t <==> Truthy(hash) && (domain, hash.value) !in t.seen
  {
    if Truthy(hash) && (domain, hash.value) !in t.seen {
      assert (domain, hash.value) in Record(t, domain, hash).seen;
    }
  }

  /** Recording a sequence of (domain, display hash) events in order. */
  function RecordAll(t: Tally, events: seq<(string, Option<string>)>): Tally {
    if |events| == 0 then t
    else
      var e := events[|events| - 1];
      Record(RecordAll(t, events[..|events| - 1]), e.0, e.1)
  }

  /** The domains of the events that carry hash `h`, in event order, repetitions kept. */
  function DomainsWith(events: seq<(string, Option<string>)>, h: string): (ds: seq<string>)
    ensures forall d :: d in ds <==> exists i :: 0 <= i < |events| && events[i] == (d, Some(h))
  {
    if |events| == 0 then []
    else
      var init := events[..|events| - 1];
      var e := events[|events| - 1];
      assert forall i :: 0 <= i < |init| ==> init[i] == events[i];
      DomainsWith(init, h) + (if e.1 == Some(h) then [e.0] else [])
  }

  /** The first occurrence of each element, in order. */
  function Dedup(xs: seq<string>): (r: seq<string>)
    ensures forall x :: x in r <==> x in xs
    ensures forall i, j :: 0 <= i < j < |r| ==> r[i] != r[j]
  {
    if |xs| == 0 then []
    else
      var d := Dedup(xs[..|xs| - 1]);
      var x := xs[|xs| - 1];
      assert forall y :: y in xs <==> y in xs[..|xs| - 1] || y == x;
      if x in d then d else d + [x]
  }

  /** One recording step, seen from the group of hash `h`: if the group was the deduplicated list
      `before`, it becomes the deduplicated list of `before` extended by the event's domain when
      the event carries `h`. */
  lemma GroupAfterRecord(t0: Tally, before: seq<string>, e: (string, Option<string>), h: string)
    requires Inv(t0) && h != ""
    requires h in t0.groups <==> before != []
    requires h in t0.groups ==> t0.groups[h] == HashGroup(|Dedup(before)|, Dedup(before))
    requires forall d :: (d, h) in t0.seen <==> d in before
    ensures var t := Record(t0, e.0, e.1);
            var after := before + (if e.1 == Some(h) then [e.0] else []);
            && (h in t.groups <==> after != [])
            && (h in t.groups ==> t.groups[h] == HashGroup(|Dedup(after)|, Dedup(after)))
  {
    var t := Record(t0, e.0, e.1);
    if e.1 == Some(h) {
      var after := before + [e.0];
      assert after[..|after| - 1] == before;
      assert Dedup(after) == if e.0 in Dedup(before) then Dedup(before) else Dedup(before) + [e.0];
      if h !in t0.groups {
        assert before == [];
      }
    } else {
      assert before + [] == before;
      if h in t.groups {
        assert t.groups[h] == t0.groups[h];
      }
    }
  }

  /** After recording any sequence of events from the empty state, the group of a non-empty hash
      `h` exists exactly when some event carried `h`; it lists each domain that carried `h` once,
      in first-seen order, and its count is the number of those distinct domains. A domain recorded
      twice with the same hash contributes once. */
  lemma {:induction false} RecordAllGroups(events: seq<(string, Option<string>)>)
    ensures Inv(RecordAll(EMPTY_TALLY, events))
    ensures forall h :: h != "" ==>
              (h in RecordAll(EMPTY_TALLY, events).groups <==> DomainsWith(events, h) != [])
    ensures forall h :: h in RecordAll(EMPTY_TALLY, events).groups ==>
              RecordAll(EMPTY_TALLY, events).groups[h] ==
              HashGroup(|Dedup(DomainsWith(events, h))|, Dedup(DomainsWith(events, h)))
  {
    var t := RecordAll(EMPTY_TALLY, events);
    if |events| == 0 {
      EmptyTallyInv();
    } else {
      var init := events[..|events| - 1];
      var e := events[|events| - 1];
      var t0 := RecordAll(EMPTY_TALLY, init);
      RecordAllGroups(init);
      RecordKeepsInv(t0, e.0, e.1);
      assert t == Record(t0, e.0, e.1);
      forall h | h != ""
        ensures h in t.groups <==> DomainsWith(events, h) != []
        ensures h in t.groups ==>
                t.groups[h] == HashGroup(|Dedup(DomainsWith(events, h))|, Dedup(DomainsWith(events, h)))
      {
        assert DomainsWith(events, h) == DomainsWith(init, h) + (if e.1 == Some(h) then [e.0] else []);
        GroupAfterRecord(t0, DomainsWith(init, h), e, h);
      }
      forall h | h in t.groups
        ensures h != ""
      {
      }
    }
  }
}
