/** The relay stage, resumed any number of times: requests go out once per target, and the findings of a
    response enter the memory once, whenever the response arrives. */
module Stage2 {
  import opened Selection
  import opened Wrappers
  import Episodic

  // ---- responses ----

  datatype Finding = Finding(findingId: string, body: string)

  datatype RelayFinding = RelayFinding(finding: Finding, notes: string, flags: seq<string>)

  /** An item of a response; a status change is not part of a finding. */
  datatype Item = Malformed | Item(finding: Finding, notes: string, statusChange: Option<string>)

  datatype Response = Unparsable | Items(items: seq<Item>)

  /** The response files, by request. They may change between two calls. */
  type Responses = map<nat, Response>

  /** The normalised notes, and what the sanitizer flagged. */
  type Sanitizer = string -> (string, seq<string>)

  /** Neither a missing response nor one without a finding list is ingested. */
  predicate Readable(responses: Responses, id: nat) {
    id in responses && responses[id].Items?
  }

  /** The well-formed items, sanitized; malformed ones are dropped. */
  function Adapt(sanitize: Sanitizer, items: seq<Item>): (fs: seq<RelayFinding>)
    ensures |fs| == |set i | 0 <= i < |items| && items[i].Item?|
    ensures forall f | f in fs :: exists item | item in items && item.Item? ::
              f.finding == item.finding && (f.notes, f.flags) == sanitize(item.notes)
  {
    if items == [] then []
    else
      var init, last := items[..|items| - 1], items[|items| - 1];
      var fs := Adapt(sanitize, init);
      assert items == init + [last];
      assert (set i | 0 <= i < |items| && items[i].Item?) ==
             (set i | 0 <= i < |init| && init[i].Item?) + if last.Item? then {|init|} else {};
      if last.Item? then
        fs + [Cleaned(sanitize, last)]
      else fs
  }

  function Cleaned(sanitize: Sanitizer, item: Item): RelayFinding
    requires item.Item?
  {
    var clean := sanitize(item.notes);
    RelayFinding(item.finding, clean.0, clean.1)
  }

  lemma {:induction false} AdaptInOrder(sanitize: Sanitizer, items: seq<Item>, i: nat)
    requires i <= |items|
    ensures Adapt(sanitize, items[..i]) <= Adapt(sanitize, items)
  {
    if i < |items| {
      AdaptInOrder(sanitize, items[..|items| - 1], i);
      assert items[..|items| - 1][..i] == items[..i];
    } else {
      assert items[..i] == items;
    }
  }

  /** Each well-formed item appears, at the place its predecessors leave it. */
  lemma AdaptKeepsEach(sanitize: Sanitizer, items: seq<Item>, i: nat)
    requires i < |items| && items[i].Item?
    ensures var k := |Adapt(sanitize, items[..i])|;
            k < |Adapt(sanitize, items)| && Adapt(sanitize, items)[k] == Cleaned(sanitize, items[i])
  {
    var next := items[..i + 1];
    assert next[..i] == items[..i];
    assert Adapt(sanitize, next) == Adapt(sanitize, items[..i]) + [Cleaned(sanitize, items[i])];
    AdaptInOrder(sanitize, items, i + 1);
  }

  // ---- which items a call takes in ----

  /** Item `item` of the response to entry `entry`. */
  datatype Slot = Slot(entry: nat, item: nat) {
    predicate Before(other: Slot) {
      entry < other.entry || (entry == other.entry && item < other.item)
    }
  }

  /** A well-formed item of a readable response to an entry that still waits for one. */
  predicate IsDue(manifest: seq<Entry>, responses: Responses, slot: Slot) {
    && slot.entry < |manifest| && !manifest[slot.entry].ingested && manifest[slot.entry].id in responses
    && responses[manifest[slot.entry].id].Items?
    && slot.item < |responses[manifest[slot.entry].id].items|
    && responses[manifest[slot.entry].id].items[slot.item].Item?
  }

  /** All of them, each once, in the order of the manifest and of the responses. */
  ghost predicate ListsDue(manifest: seq<Entry>, responses: Responses, slots: seq<Slot>) {
    && (forall m, n | 0 <= m < n < |slots| :: slots[m].Before(slots[n]))
    && (forall slot :: slot in slots <==> IsDue(manifest, responses, slot))
  }

  /** The record is made of the item: its target, the finding as it is and the sanitized notes. */
  predicate IsOf(manifest: seq<Entry>, responses: Responses, sanitize: Sanitizer, slot: Slot, record: Record) {
    && IsDue(manifest, responses, slot)
    && var entry := manifest[slot.entry];
       var item := responses[entry.id].items[slot.item];
       && record.target == entry.target && record.finding.finding == item.finding
       && (record.finding.notes, record.finding.flags) == sanitize(item.notes)
  }

  /** The records are those of all items that are due, one for each, in their order. */
  ghost predicate TakenIn(manifest: seq<Entry>, responses: Responses, sanitize: Sanitizer, records: seq<Record>) {
    exists slots | ListsDue(manifest, responses, slots) ::
      |slots| == |records| && forall n | 0 <= n < |slots| :: IsOf(manifest, responses, sanitize, slots[n], records[n])
  }

  // ---- manifest and memory ----

  datatype Entry = Entry(id: nat, target: string, ingested: bool)

  datatype Record = Record(target: string, finding: RelayFinding)

  /** One response taken in. */
  datatype Ingestion = Ingestion(id: nat, target: string, findings: seq<RelayFinding>) {
    function Records(): seq<Record> {
      seq(|findings|, i requires 0 <= i < |findings| => Record(target, findings[i]))
    }
  }

  /** The memory that a log of ingestions leaves. */
  function Records(log: seq<Ingestion>): seq<Record> {
    if log == [] then [] else Records(log[..|log| - 1]) + log[|log| - 1].Records()
  }

  function FindingIds(records: seq<Record>): seq<string> {
    seq(|records|, i requires 0 <= i < |records| => records[i].finding.finding.findingId)
  }

  /** The fields under which a relayed finding is written: no status, no override. */
  function FieldsOf(record: Record, recordId: string, projectId: string, payload: RelayFinding -> string)
    : Episodic.Fields
  {
    Episodic.Fields(recordId, projectId, record.target, Episodic.ExternalLlmOutput, None, None,
                    payload(record.finding))
  }

  /** The writes of relayed findings, under one record id each. */
  function Writes(records: seq<Record>, idOf: nat -> string, projectId: string, payload: RelayFinding -> string)
    : seq<Episodic.Event>
  {
    seq(|records|, i requires 0 <= i < |records| =>
      Episodic.Write(FieldsOf(records[i], idOf(i), projectId, payload), Some(projectId)))
  }

  /** The memory refuses none of them. */
  lemma {:induction false} RelayedIsWritten(site: Episodic.Site, records: seq<Record>, idOf: nat -> string,
                                            projectId: string, payload: RelayFinding -> string)
    ensures var written := Episodic.Run(site, Writes(records, idOf, projectId, payload)).written;
            |written| == |records|
            && forall i | 0 <= i < |records| ::
                 && written[i] == FieldsOf(records[i], idOf(i), projectId, payload)
                 && written[i].recordId == idOf(i) && written[i].projectId == projectId
                 && written[i].target == records[i].target && written[i].source == Episodic.ExternalLlmOutput
                 && written[i].statusChange == None && written[i].supersedes == None
                 && written[i].content == payload(records[i].finding)
  {
    if records != [] {
      var events := Writes(records, idOf, projectId, payload);
      var init := records[..|records| - 1];
      RelayedIsWritten(site, init, idOf, projectId, payload);
      assert events[..|events| - 1] == Writes(init, idOf, projectId, payload);
      var f := FieldsOf(records[|init|], idOf(|init|), projectId, payload);
      assert Episodic.Accepted(f, Some(projectId)) && events[|init|] == Episodic.Write(f, Some(projectId));
      assert Episodic.Run(site, events).written == Episodic.Run(site, events[..|init|]).written + [f];
    }
  }

  /** Under distinct record ids a later load returns every relayed finding. */
  lemma RelayedIsLoaded(site: Episodic.Site, records: seq<Record>, idOf: nat -> string, projectId: string,
                        payload: RelayFinding -> string, i: nat)
    requires forall j, k | 0 <= j < k < |records| :: idOf(j) != idOf(k)
    requires i < |records|
    ensures var s := Episodic.Run(site, Writes(records, idOf, projectId, payload));
            Episodic.Signed(site, FieldsOf(records[i], idOf(i), projectId, payload))
            in Episodic.LoadLines(site, s.LinesAt(Episodic.PathOf(site, projectId, records[i].target)))
  {
    hide Episodic.Run, Episodic.LoadLines, Episodic.WrittenTo, Episodic.SafeName;
    var events := Writes(records, idOf, projectId, payload);
    var written, target := Episodic.Run(site, events).written, records[i].target;
    RelayedIsWritten(site, records, idOf, projectId, payload);
    assert written[i] in written;
    forall j, k | 0 <= j < k < |written| ensures written[j].recordId != written[k].recordId {
    }
    Episodic.DistinctWritten(site, written, Episodic.PathOf(site, projectId, target));
    Episodic.UntouchedLoadHolds(site, events, projectId, target,
                                Episodic.Signed(site, FieldsOf(records[i], idOf(i), projectId, payload)));
  }

  // ---- one call, as a function ----

  datatype Call = Call(targets: seq<string>, responses: Responses)

  datatype State = State(manifest: seq<Entry>, nextId: nat, log: seq<Ingestion>)

  const START := State([], 0, [])

  function Targets(manifest: seq<Entry>): set<string> {
    set e | e in manifest :: e.target
  }

  /** The targets that get a request: those no entry stood for when the call began. */
  function Unrequested(requested: set<string>, targets: seq<string>): (asked: seq<string>)
    ensures forall t :: t in asked <==> t in targets && t !in requested
  {
    if targets == [] then []
    else
      var init, last := targets[..|targets| - 1], targets[|targets| - 1];
      var asked := Unrequested(requested, init);
      assert targets == init + [last];
      if last in requested then asked else asked + [last]
  }

  function Requests(nextId: nat, targets: seq<string>): seq<Entry> {
    seq(|targets|, i requires 0 <= i < |targets| => Entry(nextId + i, targets[i], false))
  }

  function Emit(s: State, targets: seq<string>): State {
    var asked := Unrequested(Targets(s.manifest), targets);
    State(s.manifest + Requests(s.nextId, asked), s.nextId + |asked|, s.log)
  }

  function Fresh(requested: set<string>): string -> bool {
    (target: string) => target !in requested
  }

  function Same(): string -> string {
    (target: string) => target
  }

  lemma {:induction false} UnrequestedIs(requested: set<string>, targets: seq<string>)
    ensures Picks(targets, Fresh(requested), Same(), Unrequested(requested, targets))
  {
    hide Picks;
    if targets == [] {
      PicksNothing(Fresh(requested), Same());
    } else {
      var init, last := targets[..|targets| - 1], targets[|targets| - 1];
      UnrequestedIs(requested, init);
      PicksMore(init, Fresh(requested), Same(), Unrequested(requested, init), last);
      assert targets == init + [last];
    }
  }

  /** What a call requests: the manifest goes on with one entry for each listed target that no entry stood for, in
      their order, under the next free ids, and waiting. */
  lemma EmitIs(s: State, targets: seq<string>)
    ensures var t, n := Emit(s, targets), |s.manifest|;
            && t.manifest[..n] == s.manifest && t.log == s.log && t.nextId == s.nextId + |t.manifest| - n
            && (forall k | n <= k < |t.manifest| :: t.manifest[k].id == s.nextId + k - n && !t.manifest[k].ingested)
            && Picks(targets, Fresh(set e | e in s.manifest :: e.target), Same(),
                     seq(|t.manifest| - n, k requires 0 <= k < |t.manifest| - n => t.manifest[n + k].target))
  {
    hide Picks;
    var asked := Unrequested(Targets(s.manifest), targets);
    UnrequestedIs(Targets(s.manifest), targets);
    var t, n := Emit(s, targets), |s.manifest|;
    assert forall k | 0 <= k < |asked| :: t.manifest[n + k] == Requests(s.nextId, asked)[k];
    assert seq(|t.manifest| - n, k requires 0 <= k < |t.manifest| - n => t.manifest[n + k].target) == asked;
  }

  function Waits(): Entry -> bool {
    (e: Entry) => !e.ingested
  }

  function IdOf(): Entry -> nat {
    (e: Entry) => e.id
  }

  /** What is reported as pending are the ids of the waiting entries, in order. */
  lemma {:induction false} PendingIs(manifest: seq<Entry>)
    ensures Picks(manifest, Waits(), IdOf(), Pending(manifest))
  {
    hide Picks;
    if manifest == [] {
      PicksNothing(Waits(), IdOf());
    } else {
      var init, last := manifest[..|manifest| - 1], manifest[|manifest| - 1];
      PendingIs(init);
      PicksMore(init, Waits(), IdOf(), Pending(init), last);
      assert manifest == init + [last];
      assert Pending(manifest) == if Waits()(last) then Pending(init) + [last.id] else Pending(init);
    }
  }

  predicate Arrives(e: Entry, responses: Responses) {
    !e.ingested && Readable(responses, e.id)
  }

  function Taken(e: Entry, responses: Responses, sanitize: Sanitizer): Ingestion
    requires Arrives(e, responses)
  {
    Ingestion(e.id, e.target, Adapt(sanitize, responses[e.id].items))
  }

  function ArrivalOf(e: Entry, responses: Responses, sanitize: Sanitizer): seq<Ingestion> {
    if Arrives(e, responses) then [Taken(e, responses, sanitize)] else []
  }

  /** What a call ingests, in the order of the manifest. */
  function Arrivals(manifest: seq<Entry>, responses: Responses, sanitize: Sanitizer): seq<Ingestion> {
    if manifest == [] then []
    else
      Arrivals(manifest[..|manifest| - 1], responses, sanitize) +
      ArrivalOf(manifest[|manifest| - 1], responses, sanitize)
  }

  lemma ArrivalsStep(manifest: seq<Entry>, responses: Responses, sanitize: Sanitizer, i: nat)
    requires i < |manifest|
    ensures Arrivals(manifest[..i + 1], responses, sanitize) ==
            Arrivals(manifest[..i], responses, sanitize) + ArrivalOf(manifest[i], responses, sanitize)
    ensures |ArrivalOf(manifest[i], responses, sanitize)| == if Arrives(manifest[i], responses) then 1 else 0
  {
    assert manifest[..i + 1][..i] == manifest[..i];
  }

  function Marked(e: Entry, responses: Responses): Entry {
    e.(ingested := e.ingested || Readable(responses, e.id))
  }

  function MarkAll(manifest: seq<Entry>, responses: Responses): seq<Entry> {
    seq(|manifest|, i requires 0 <= i < |manifest| => Marked(manifest[i], responses))
  }

  function Step(s: State, c: Call, sanitize: Sanitizer): State {
    var m := Emit(s, c.targets);
    State(MarkAll(m.manifest, c.responses), m.nextId, m.log + Arrivals(m.manifest, c.responses, sanitize))
  }

  function Run(s: State, calls: seq<Call>, sanitize: Sanitizer): State {
    if calls == [] then s
    else Step(Run(s, calls[..|calls| - 1], sanitize), calls[|calls| - 1], sanitize)
  }

  /** The entries still waiting for a response, in order. */
  function Pending(manifest: seq<Entry>): (ids: seq<nat>)
    ensures ids == [] <==> forall e | e in manifest :: e.ingested
  {
    if manifest == [] then []
    else
      var init, last := manifest[..|manifest| - 1], manifest[|manifest| - 1];
      assert manifest == init + [last];
      Pending(init) + if last.ingested then [] else [last.id]
  }

  lemma NothingMarked(was: seq<Entry>, responses: Responses, sanitize: Sanitizer)
    ensures was == MarkAll(was[..0], responses) + was[0..]
    ensures Arrivals(was[..0], responses, sanitize) == [] && Pending(MarkAll(was[..0], responses)) == []
  {
  }

  lemma MarkStep(was: seq<Entry>, responses: Responses, i: nat)
    requires i < |was|
    ensures var done, marked := MarkAll(was[..i], responses), Marked(was[i], responses);
            && |done| == i && (done + was[i..])[i] == was[i]
            && (done + was[i..])[i := marked] == MarkAll(was[..i + 1], responses) + was[i + 1..]
            && MarkAll(was[..i + 1], responses)[i] == marked && marked.id == was[i].id
            && Pending(MarkAll(was[..i + 1], responses)) == Pending(done) + if marked.ingested then [] else [marked.id]
  {
    hide Readable;
    var done, marked := MarkAll(was[..i], responses), Marked(was[i], responses);
    assert MarkAll(was[..i + 1], responses) == done + [marked];
    assert (done + [marked])[..i] == done;
  }

  // ---- what a call takes in, item by item ----

  lemma AdaptStep(sanitize: Sanitizer, items: seq<Item>)
    requires items != []
    ensures var init, last := items[..|items| - 1], items[|items| - 1];
            Adapt(sanitize, items) ==
            if last.Item? then Adapt(sanitize, init) + [Cleaned(sanitize, last)] else Adapt(sanitize, init)
  {
  }

  lemma OneMoreRecord(id: nat, target: string, fs: seq<RelayFinding>, f: RelayFinding)
    ensures Ingestion(id, target, fs + [f]).Records() == Ingestion(id, target, fs).Records() + [Record(target, f)]
  {
  }

  /** The first `n` items of the response to entry `i`. */
  ghost predicate ItemsTaken(manifest: seq<Entry>, responses: Responses, sanitize: Sanitizer, i: nat, n: nat,
                             slots: seq<Slot>, records: seq<Record>)
  {
    && (forall a, b | 0 <= a < b < |slots| :: slots[a].Before(slots[b]))
    && (forall slot :: slot in slots <==> slot.entry == i && slot.item < n && IsDue(manifest, responses, slot))
    && |records| == |slots|
    && forall k | 0 <= k < |slots| :: IsOf(manifest, responses, sanitize, slots[k], records[k])
  }

  lemma NoItemTaken(manifest: seq<Entry>, responses: Responses, sanitize: Sanitizer, i: nat)
    ensures ItemsTaken(manifest, responses, sanitize, i, 0, [], [])
  {
  }

  lemma MalformedIsSkipped(manifest: seq<Entry>, responses: Responses, sanitize: Sanitizer, i: nat, n: nat,
                           slots: seq<Slot>, records: seq<Record>)
    requires ItemsTaken(manifest, responses, sanitize, i, n, slots, records) && !IsDue(manifest, responses, Slot(i, n))
    ensures ItemsTaken(manifest, responses, sanitize, i, n + 1, slots, records)
  {
    hide IsDue, IsOf;
    forall slot ensures slot in slots <==> slot.entry == i && slot.item < n + 1 && IsDue(manifest, responses, slot) {
      assert slot.entry == i && slot.item == n ==> slot == Slot(i, n);
    }
  }

  lemma ItemIsTaken(manifest: seq<Entry>, responses: Responses, sanitize: Sanitizer, i: nat, n: nat,
                    slots: seq<Slot>, records: seq<Record>, record: Record)
    requires ItemsTaken(manifest, responses, sanitize, i, n, slots, records)
    requires IsOf(manifest, responses, sanitize, Slot(i, n), record)
    ensures ItemsTaken(manifest, responses, sanitize, i, n + 1, slots + [Slot(i, n)], records + [record])
  {
    assert IsDue(manifest, responses, Slot(i, n));
    hide IsDue, IsOf;
    var more := slots + [Slot(i, n)];
    forall slot ensures slot in more <==> slot.entry == i && slot.item < n + 1 && IsDue(manifest, responses, slot) {
      assert slot in more <==> slot in slots || slot == Slot(i, n);
      assert slot.entry == i && slot.item == n ==> slot == Slot(i, n);
    }
    forall a, b | 0 <= a < b < |more| ensures more[a].Before(more[b]) {
      assert a < |slots| && slots[a] in slots;
    }
  }

  /** The items of one response, from its first `n` on. */
  lemma {:induction false} ItemsOfOne(manifest: seq<Entry>, responses: Responses, sanitize: Sanitizer, i: nat, n: nat)
    returns (slots: seq<Slot>)
    requires i < |manifest| && Arrives(manifest[i], responses) && n <= |responses[manifest[i].id].items|
    ensures ItemsTaken(manifest, responses, sanitize, i, n, slots,
                       Ingestion(manifest[i].id, manifest[i].target,
                                 Adapt(sanitize, responses[manifest[i].id].items[..n])).Records())
  {
    hide ItemsTaken;
    var e, items := manifest[i], responses[manifest[i].id].items;
    if n == 0 {
      slots := [];
      NoItemTaken(manifest, responses, sanitize, i);
      assert Ingestion(e.id, e.target, Adapt(sanitize, [])).Records() == [];
    } else {
      slots := ItemsOfOne(manifest, responses, sanitize, i, n - 1);
      assert items[..n][..n - 1] == items[..n - 1] && items[..n][n - 1] == items[n - 1];
      AdaptStep(sanitize, items[..n]);
      hide Adapt, Ingestion.Records;
      var done := Adapt(sanitize, items[..n - 1]);
      var records := Ingestion(e.id, e.target, done).Records();
      if items[n - 1].Item? {
        var f := Cleaned(sanitize, items[n - 1]);
        OneMoreRecord(e.id, e.target, done, f);
        ItemIsTaken(manifest, responses, sanitize, i, n - 1, slots, records, Record(e.target, f));
        slots := slots + [Slot(i, n - 1)];
      } else {
        MalformedIsSkipped(manifest, responses, sanitize, i, n - 1, slots, records);
      }
    }
  }

  lemma NothingIsDue(manifest: seq<Entry>, responses: Responses)
    requires manifest == []
    ensures ListsDue(manifest, responses, [])
  {
  }

  lemma DueJoins(manifest: seq<Entry>, responses: Responses, before: seq<Slot>, here: seq<Slot>)
    requires manifest != [] && ListsDue(manifest[..|manifest| - 1], responses, before)
    requires forall a, b | 0 <= a < b < |here| :: here[a].Before(here[b])
    requires forall slot :: slot in here <==> slot.entry == |manifest| - 1 && IsDue(manifest, responses, slot)
    ensures ListsDue(manifest, responses, before + here)
  {
    var n := |manifest| - 1;
    var slots := before + here;
    forall slot ensures slot in slots <==> IsDue(manifest, responses, slot) {
      assert slot in slots <==> slot in before || slot in here;
      assert slot.entry < n ==> (IsDue(manifest, responses, slot) <==> IsDue(manifest[..n], responses, slot));
    }
    forall a, b | 0 <= a < b < |slots| ensures slots[a].Before(slots[b]) {
      if a < |before| <= b {
        assert before[a] in before && here[b - |before|] in here;
      }
    }
  }

  lemma IsOfLater(manifest: seq<Entry>, responses: Responses, sanitize: Sanitizer, slot: Slot, record: Record)
    requires manifest != [] && IsOf(manifest[..|manifest| - 1], responses, sanitize, slot, record)
    ensures IsOf(manifest, responses, sanitize, slot, record)
  {
  }

  /** What a call adds to the memory are the records of all items that were due. */
  lemma {:induction false} ArrivalsAreTakenIn(manifest: seq<Entry>, responses: Responses, sanitize: Sanitizer)
    ensures TakenIn(manifest, responses, sanitize, Records(Arrivals(manifest, responses, sanitize)))
  {
    hide IsDue, IsOf, Adapt, ListsDue, Ingestion.Records, Slot.Before, ArrivalOf;
    if manifest == [] {
      NothingIsDue(manifest, responses);
    } else {
      var n := |manifest| - 1;
      var init, e := manifest[..n], manifest[n];
      ArrivalsAreTakenIn(init, responses, sanitize);
      var done := Records(Arrivals(init, responses, sanitize));
      var before :| ListsDue(init, responses, before) && |before| == |done| &&
                    forall k | 0 <= k < |before| :: IsOf(init, responses, sanitize, before[k], done[k]);
      forall k | 0 <= k < |before| { IsOfLater(manifest, responses, sanitize, before[k], done[k]); }
      RecordsGrow(Arrivals(init, responses, sanitize), ArrivalOf(e, responses, sanitize));
      var here, more := OneArrival(manifest, responses, sanitize);
      TakenInJoins(manifest, responses, sanitize, before, here, done, more);
    }
  }

  lemma TakenInJoins(manifest: seq<Entry>, responses: Responses, sanitize: Sanitizer, before: seq<Slot>,
                     here: seq<Slot>, done: seq<Record>, more: seq<Record>)
    requires manifest != [] && ListsDue(manifest[..|manifest| - 1], responses, before)
    requires forall a, b | 0 <= a < b < |here| :: here[a].Before(here[b])
    requires forall slot :: slot in here <==> slot.entry == |manifest| - 1 && IsDue(manifest, responses, slot)
    requires |before| == |done| && |here| == |more|
    requires forall k | 0 <= k < |before| :: IsOf(manifest, responses, sanitize, before[k], done[k])
    requires forall k | 0 <= k < |here| :: IsOf(manifest, responses, sanitize, here[k], more[k])
    ensures TakenIn(manifest, responses, sanitize, done + more)
  {
    hide IsDue, IsOf, ListsDue, Slot.Before;
    DueJoins(manifest, responses, before, here);
    var slots, records := before + here, done + more;
    forall k | 0 <= k < |slots| ensures IsOf(manifest, responses, sanitize, slots[k], records[k]) {
    }
  }

  /** The last entry, if its response arrives. */
  lemma OneArrival(manifest: seq<Entry>, responses: Responses, sanitize: Sanitizer)
    returns (here: seq<Slot>, more: seq<Record>)
    requires manifest != []
    ensures more == Records(ArrivalOf(manifest[|manifest| - 1], responses, sanitize)) && |here| == |more|
    ensures forall a, b | 0 <= a < b < |here| :: here[a].Before(here[b])
    ensures forall slot :: slot in here <==> slot.entry == |manifest| - 1 && IsDue(manifest, responses, slot)
    ensures forall k | 0 <= k < |here| :: IsOf(manifest, responses, sanitize, here[k], more[k])
  {
    hide IsOf, Adapt, Ingestion.Records;
    var n := |manifest| - 1;
    var e := manifest[n];
    if Arrives(e, responses) {
      var items := responses[e.id].items;
      here := ItemsOfOne(manifest, responses, sanitize, n, |items|);
      assert items[..|items|] == items;
      var taken := Taken(e, responses, sanitize);
      assert [taken][..0] == [] && Records([taken]) == [] + taken.Records();
      more := taken.Records();
    } else {
      here, more := [], [];
    }
  }

  // ---- the stage itself ----

  datatype Status = Paused | Done

  datatype Result = Result(status: Status, findings: seq<RelayFinding>, pending: seq<nat>, requested: nat,
                           ingested: nat)

  function FindingsOf(records: seq<Record>): seq<RelayFinding> {
    seq(|records|, i requires 0 <= i < |records| => records[i].finding)
  }

  class Session {
    const sanitize: Sanitizer
    var manifest: seq<Entry>
    var nextId: nat
    var memory: seq<Record>
    var findingIds: seq<string>
    /** Which responses made the memory. */
    ghost var log: seq<Ingestion>

    ghost function Abstract(): State
      reads this
    {
      State(manifest, nextId, log)
    }

    /** The memory and the ids of the session hold the findings of the log and nothing else. */
    ghost predicate Valid()
      reads this
    {
      memory == Records(log) && findingIds == FindingIds(memory)
    }

    constructor (sanitize: Sanitizer)
      ensures Valid() && Abstract() == START && this.sanitize == sanitize
    {
      this.sanitize := sanitize;
      manifest, nextId, memory, findingIds, log := [], 0, [], [], [];
    }

    method EmitRequests(targets: seq<string>) returns (requested: nat)
      requires Valid()
      modifies this
      ensures Valid() && Abstract() == Emit(old(Abstract()), targets)
      ensures requested == |Unrequested(old(Targets(manifest)), targets)|
    {
      var alreadyRequested := Targets(manifest);
      ghost var asked: seq<string> := [];
      requested := 0;
      for i := 0 to |targets|
        invariant asked == Unrequested(alreadyRequested, targets[..i])
        invariant manifest == old(manifest) + Requests(old(nextId), asked)
        invariant nextId == old(nextId) + |asked| && requested == |asked|
        invariant memory == old(memory) && findingIds == old(findingIds) && log == old(log)
      {
        assert targets[..i + 1][..i] == targets[..i];
        if targets[i] !in alreadyRequested {
          manifest := manifest + [Entry(nextId, targets[i], false)];
          nextId, requested := nextId + 1, requested + 1;
          asked := asked + [targets[i]];
        }
      }
      assert targets[..|targets|] == targets;
    }

    /** Takes in the response to one entry. */
    method WriteFindings(e: Entry, items: seq<Item>)
      requires Valid()
      modifies this`memory, this`findingIds, this`log
      ensures Valid()
      ensures log == old(log) + [Ingestion(e.id, e.target, Adapt(sanitize, items))]
    {
      hide Adapt;
      var findings := Adapt(sanitize, items);
      ghost var taken := Ingestion(e.id, e.target, findings);
      for i := 0 to |findings|
        invariant memory == old(memory) + taken.Records()[..i]
        invariant findingIds == FindingIds(memory) && log == old(log)
      {
        memory := memory + [Record(e.target, findings[i])];
        findingIds := findingIds + [findings[i].finding.findingId];
      }
      log := log + [taken];
      assert taken.Records()[..|findings|] == taken.Records();
      assert (old(log) + [taken])[..|old(log)|] == old(log);
    }

    /** One entry of the manifest: it stays pending, is skipped or is ingested. */
    method IngestAt(i: nat, responses: Responses) returns (waits: bool, taken: bool)
      requires Valid() && i < |manifest|
      modifies this`manifest, this`memory, this`findingIds, this`log
      ensures Valid()
      ensures manifest == old(manifest)[i := Marked(old(manifest)[i], responses)]
      ensures log == old(log) + ArrivalOf(old(manifest)[i], responses, sanitize)
      ensures waits == !manifest[i].ingested && taken == Arrives(old(manifest)[i], responses)
    {
      hide Adapt, Records;
      var e := manifest[i];
      waits, taken := false, false;
      if e.ingested {
      } else if !Readable(responses, e.id) {
        waits := true;
      } else {
        WriteFindings(e, responses[e.id].items);
        manifest := manifest[i := e.(ingested := true)];
        taken := true;
      }
    }

    method IngestResponses(responses: Responses) returns (pending: seq<nat>, ingested: nat)
      requires Valid()
      modifies this`manifest, this`memory, this`findingIds, this`log
      ensures Valid()
      ensures manifest == MarkAll(old(manifest), responses)
      ensures log == old(log) + Arrivals(old(manifest), responses, sanitize)
      ensures pending == Pending(manifest)
      ensures ingested == |Arrivals(old(manifest), responses, sanitize)|
    {
      hide Adapt, Records, Marked, Arrives, Session.Valid, ArrivalOf, MarkAll, Arrivals, Pending;
      ghost var was := manifest;
      pending, ingested := [], 0;
      NothingMarked(was, responses, sanitize);
      for i := 0 to |manifest|
        invariant |manifest| == |was|
        invariant manifest == MarkAll(was[..i], responses) + was[i..]
        invariant Valid()
        invariant log == old(log) + Arrivals(was[..i], responses, sanitize)
        invariant ingested == |Arrivals(was[..i], responses, sanitize)|
        invariant pending == Pending(MarkAll(was[..i], responses))
      {
        ArrivalsStep(was, responses, sanitize, i);
        MarkStep(was, responses, i);
        var waits, taken := IngestAt(i, responses);
        if waits {
          pending := pending + [manifest[i].id];
        }
        if taken {
          ingested := ingested + 1;
        }
      }
      assert was[..|was|] == was;
    }

    /** Emits requests for the targets, takes in the responses that are there, and reports. */
    method RunStage2(targets: seq<string>, responses: Responses) returns (r: Result)
      requires Valid()
      modifies this
      ensures Valid() && Abstract() == Step(old(Abstract()), Call(targets, responses), sanitize)
      ensures r.requested == |Unrequested(old(Targets(manifest)), targets)|
      ensures old(log) <= log && r.ingested == |log| - |old(log)|
      ensures old(memory) <= memory && r.findings == FindingsOf(memory[|old(memory)|..])
      ensures TakenIn(Emit(old(Abstract()), targets).manifest, responses, sanitize, memory[|old(memory)|..])
      ensures r.pending == Pending(manifest)
      ensures r.status == Done <==> forall e | e in manifest :: e.ingested
    {
      hide Adapt, Records, Arrivals, MarkAll, Unrequested, Pending;
      var requested := EmitRequests(targets);
      assert log == old(log);
      ghost var before := log;
      var size := |memory|;
      var pending, ingested := IngestResponses(responses);
      RecordsGrow(before, log[|before|..]);
      ArrivalsAreTakenIn(Emit(old(Abstract()), targets).manifest, responses, sanitize);
      assert log == before + log[|before|..];
      r := Result(if pending == [] then Done else Paused, FindingsOf(memory[size..]), pending, requested, ingested);
    }
  }

  lemma {:induction false} RecordsGrow(a: seq<Ingestion>, b: seq<Ingestion>)
    ensures Records(a + b) == Records(a) + Records(b)
  {
    hide Ingestion.Records;
    if b == [] {
      assert a + b == a;
    } else {
      var init, last := b[..|b| - 1], b[|b| - 1];
      RecordsGrow(a, init);
      assert (a + b)[..|a + b| - 1] == a + init && (a + b)[|a + b| - 1] == last;
      assert Records(a + b) == Records(a + init) + last.Records();
    }
  }

  // ---- what every run keeps ----

  predicate IdsIncrease(manifest: seq<Entry>) {
    forall i, j | 0 <= i < j < |manifest| :: manifest[i].id < manifest[j].id
  }

  /** No request is ingested twice. */
  predicate Once(log: seq<Ingestion>) {
    forall i, j | 0 <= i < j < |log| :: log[i].id != log[j].id
  }

  /** The ingestion belongs to an ingested entry. */
  predicate Covered(i: Ingestion, manifest: seq<Entry>) {
    Entry(i.id, i.target, true) in manifest
  }

  predicate Logged(e: Entry, log: seq<Ingestion>) {
    exists i | i in log :: i.id == e.id
  }

  ghost predicate Sound(s: State) {
    && IdsIncrease(s.manifest) && (forall e | e in s.manifest :: e.id < s.nextId)
    && Once(s.log) && (forall i | i in s.log :: Covered(i, s.manifest))
    && (forall e | e in s.manifest && e.ingested :: Logged(e, s.log))
  }

  lemma EmitKeeps(s: State, targets: seq<string>)
    requires Sound(s)
    ensures Sound(Emit(s, targets))
    ensures Emit(s, targets).manifest[..|s.manifest|] == s.manifest
  {
    hide Covered, Logged, Unrequested, Once;
    var t := Emit(s, targets);
    assert t.log == s.log;
    forall i | i in s.log ensures Covered(i, t.manifest) { CoveredGrows(i, s.manifest, t.manifest); }
  }

  lemma CoveredGrows(i: Ingestion, a: seq<Entry>, b: seq<Entry>)
    requires Covered(i, a) && |a| <= |b|
    requires forall k | 0 <= k < |a| :: a[k].ingested ==> a[k] == b[k]
    ensures Covered(i, b)
  {
    var k :| 0 <= k < |a| && a[k] == Entry(i.id, i.target, true);
    assert b[k] == a[k];
  }

  /** An arrival comes from one entry of the manifest that waited for it. */
  lemma {:induction false} ArrivalHasEntry(manifest: seq<Entry>, responses: Responses, sanitize: Sanitizer, k: nat)
    returns (i: nat)
    requires k < |Arrivals(manifest, responses, sanitize)|
    ensures i < |manifest| && Arrives(manifest[i], responses)
    ensures Arrivals(manifest, responses, sanitize)[k] == Taken(manifest[i], responses, sanitize)
  {
    hide Adapt, Arrives;
    var init := manifest[..|manifest| - 1];
    if k < |Arrivals(init, responses, sanitize)| {
      i := ArrivalHasEntry(init, responses, sanitize, k);
      assert init[i] == manifest[i];
    } else {
      i := |manifest| - 1;
    }
  }

  /** An entry that waited and has a readable response is among the arrivals. */
  lemma {:induction false} EntryArrives(manifest: seq<Entry>, responses: Responses, sanitize: Sanitizer, i: nat)
    requires i < |manifest| && Arrives(manifest[i], responses)
    ensures Taken(manifest[i], responses, sanitize) in Arrivals(manifest, responses, sanitize)
  {
    hide Adapt, Arrives;
    var init := manifest[..|manifest| - 1];
    if i < |init| {
      EntryArrives(init, responses, sanitize, i);
      assert init[i] == manifest[i];
    }
  }

  lemma {:induction false} ArrivalsOnce(manifest: seq<Entry>, responses: Responses, sanitize: Sanitizer)
    requires IdsIncrease(manifest)
    ensures Once(Arrivals(manifest, responses, sanitize))
  {
    hide Adapt, Arrives;
    if manifest == [] {
    } else {
      var init, last := manifest[..|manifest| - 1], manifest[|manifest| - 1];
      ArrivalsOnce(init, responses, sanitize);
      var a := Arrivals(init, responses, sanitize);
      forall k | 0 <= k < |a| ensures a[k].id < last.id {
        var i := ArrivalHasEntry(init, responses, sanitize, k);
        assert init[i] == manifest[i];
      }
    }
  }

  lemma OnceJoins(a: seq<Ingestion>, b: seq<Ingestion>)
    requires Once(a) && Once(b) && forall x, y | x in a && y in b :: x.id != y.id
    ensures Once(a + b)
  {
    forall i, j | 0 <= i < j < |a + b| ensures (a + b)[i].id != (a + b)[j].id {
      if i < |a| <= j {
        assert a[i] in a && b[j - |a|] in b;
      }
    }
  }

  /** Two entries of the same id are the same entry. */
  lemma SameEntry(manifest: seq<Entry>, d: Entry, e: Entry)
    requires IdsIncrease(manifest) && d in manifest && e in manifest && d.id == e.id
    ensures d == e
  {
  }

  lemma IngestKeeps(m: State, responses: Responses, sanitize: Sanitizer)
    requires Sound(m)
    ensures Sound(State(MarkAll(m.manifest, responses), m.nextId, m.log + Arrivals(m.manifest, responses, sanitize)))
  {
    hide Adapt, Arrivals, Once, IdsIncrease, Covered, Logged;
    var a := Arrivals(m.manifest, responses, sanitize);
    var after := MarkAll(m.manifest, responses);
    assert IdsIncrease(after) by { MarkingKeepsIds(m.manifest, responses); }
    forall i | i in m.log ensures Covered(i, after) { CoveredGrows(i, m.manifest, after); }
    forall x, y | x in m.log && y in a ensures x.id != y.id {
      IngestedDoesNotArrive(m, responses, sanitize, x, y);
    }
    forall y | y in a ensures Covered(y, after) {
      ArrivalIsCovered(m.manifest, responses, sanitize, y);
    }
    ArrivalsOnce(m.manifest, responses, sanitize);
    OnceJoins(m.log, a);
    forall e | e in after && e.ingested ensures Logged(e, m.log + a) {
      MarkedIsLogged(m, responses, sanitize, e);
    }
  }

  lemma MarkingKeepsIds(manifest: seq<Entry>, responses: Responses)
    requires IdsIncrease(manifest)
    ensures IdsIncrease(MarkAll(manifest, responses))
  {
  }

  lemma IngestedDoesNotArrive(m: State, responses: Responses, sanitize: Sanitizer, x: Ingestion, y: Ingestion)
    requires Sound(m) && x in m.log && y in Arrivals(m.manifest, responses, sanitize)
    ensures x.id != y.id
  {
    hide Adapt, Arrivals, IdsIncrease, Once, Logged;
    var k :| 0 <= k < |Arrivals(m.manifest, responses, sanitize)| && Arrivals(m.manifest, responses, sanitize)[k] == y;
    var i := ArrivalHasEntry(m.manifest, responses, sanitize, k);
    assert Covered(x, m.manifest);
    if x.id == y.id {
      SameEntry(m.manifest, Entry(x.id, x.target, true), m.manifest[i]);
    }
  }

  lemma ArrivalIsCovered(manifest: seq<Entry>, responses: Responses, sanitize: Sanitizer, y: Ingestion)
    requires y in Arrivals(manifest, responses, sanitize)
    ensures Covered(y, MarkAll(manifest, responses))
  {
    hide Adapt, Arrivals;
    var k :| 0 <= k < |Arrivals(manifest, responses, sanitize)| && Arrivals(manifest, responses, sanitize)[k] == y;
    var i := ArrivalHasEntry(manifest, responses, sanitize, k);
    assert MarkAll(manifest, responses)[i] == Entry(y.id, y.target, true);
  }

  lemma MarkedIsLogged(m: State, responses: Responses, sanitize: Sanitizer, e: Entry)
    requires Sound(m) && e in MarkAll(m.manifest, responses) && e.ingested
    ensures Logged(e, m.log + Arrivals(m.manifest, responses, sanitize))
  {
    hide Adapt, Arrivals, IdsIncrease, Once, Covered;
    var a := Arrivals(m.manifest, responses, sanitize);
    var i :| 0 <= i < |m.manifest| && e == Marked(m.manifest[i], responses);
    if m.manifest[i].ingested {
      assert Logged(m.manifest[i], m.log);
      var x :| x in m.log && x.id == e.id;
      assert x in m.log + a;
    } else {
      EntryArrives(m.manifest, responses, sanitize, i);
      assert Taken(m.manifest[i], responses, sanitize) in m.log + a;
    }
  }

  lemma StepKeeps(s: State, c: Call, sanitize: Sanitizer)
    requires Sound(s)
    ensures Sound(Step(s, c, sanitize))
  {
    hide Sound, MarkAll, Arrivals, Emit;
    EmitKeeps(s, c.targets);
    IngestKeeps(Emit(s, c.targets), c.responses, sanitize);
  }

  /** Over any calls, with responses arriving, changing or vanishing in between: no request is ingested
      twice, and the ingested requests are exactly those whose findings the memory holds. */
  lemma {:induction false} RunsStaySound(calls: seq<Call>, sanitize: Sanitizer)
    ensures Sound(Run(START, calls, sanitize))
  {
    hide Step, Sound;
    if calls == [] {
      assert Sound(START) by { EmptyIsSound(); }
    } else {
      var init := calls[..|calls| - 1];
      RunsStaySound(init, sanitize);
      StepKeeps(Run(START, init, sanitize), calls[|calls| - 1], sanitize);
    }
  }

  lemma EmptyIsSound()
    ensures Sound(START)
  {
  }

  /** `t` is a later state: nothing was dropped, renamed or reopened. */
  ghost predicate Later(s: State, t: State) {
    && |s.manifest| <= |t.manifest| && s.log <= t.log
    && forall k | 0 <= k < |s.manifest| ::
         && t.manifest[k].id == s.manifest[k].id && t.manifest[k].target == s.manifest[k].target
         && (s.manifest[k].ingested ==> t.manifest[k].ingested)
  }

  /** Entries are never dropped or reopened, and what is in the memory stays. */
  lemma {:induction false} NothingReopens(s: State, calls: seq<Call>, sanitize: Sanitizer)
    ensures Later(s, Run(s, calls, sanitize))
    ensures Records(s.log) <= Records(Run(s, calls, sanitize).log)
  {
    hide Arrivals, Unrequested, Records;
    if calls == [] {
    } else {
      var init := calls[..|calls| - 1];
      NothingReopens(s, init, sanitize);
      var t := Run(s, init, sanitize);
      var u := Step(t, calls[|calls| - 1], sanitize);
      RecordsGrow(t.log, u.log[|t.log|..]);
      assert u.log == t.log + u.log[|t.log|..];
    }
  }

  lemma NothingUnrequested(requested: set<string>, targets: seq<string>)
    requires forall t | t in targets :: t in requested
    ensures Unrequested(requested, targets) == []
  {
  }

  /** A target that was asked for once is not requested again by any later call. */
  lemma RepeatEmitsNothing(s: State, c: Call, calls: seq<Call>, again: seq<string>, sanitize: Sanitizer)
    requires forall t | t in again :: t in c.targets
    ensures Unrequested(Targets(Run(Step(s, c, sanitize), calls, sanitize).manifest), again) == []
  {
    hide Arrivals, Run, Step;
    var first := Step(s, c, sanitize);
    var t := Run(first, calls, sanitize);
    NothingReopens(first, calls, sanitize);
    TargetsHaveEntries(s, c, sanitize);
    forall target | target in c.targets ensures target in Targets(t.manifest) {
      var k :| 0 <= k < |first.manifest| && first.manifest[k].target == target;
      assert t.manifest[k].target == target;
    }
    NothingUnrequested(Targets(t.manifest), again);
  }

  /** After a call every target of it has an entry. */
  lemma TargetsHaveEntries(s: State, c: Call, sanitize: Sanitizer)
    ensures forall target | target in c.targets ::
              exists k | 0 <= k < |Step(s, c, sanitize).manifest| :: Step(s, c, sanitize).manifest[k].target == target
  {
    hide Arrivals, Readable;
    var asked := Unrequested(Targets(s.manifest), c.targets);
    var m := Emit(s, c.targets).manifest;
    var t := Step(s, c, sanitize).manifest;
    forall target | target in c.targets ensures exists k | 0 <= k < |t| :: t[k].target == target {
      if target in Targets(s.manifest) {
        var k :| 0 <= k < |s.manifest| && s.manifest[k].target == target;
        assert m[k] == s.manifest[k] && t[k].target == target;
      } else {
        var k :| 0 <= k < |asked| && asked[k] == target;
        assert m[|s.manifest| + k] == Requests(s.nextId, asked)[k];
        assert t[|s.manifest| + k].target == target;
      }
    }
  }

  /** The call is done exactly when nothing that it knows of is left to answer. */
  lemma DoneWhenAllReadable(s: State, c: Call, sanitize: Sanitizer)
    ensures Pending(Step(s, c, sanitize).manifest) == [] <==>
            forall e | e in Emit(s, c.targets).manifest :: e.ingested || Readable(c.responses, e.id)
  {
    hide Readable, Arrivals, Emit;
    var m := Emit(s, c.targets).manifest;
    var t := Step(s, c, sanitize).manifest;
    if forall e | e in m :: e.ingested || Readable(c.responses, e.id) {
      forall e | e in t ensures e.ingested {
        var k :| 0 <= k < |t| && t[k] == e;
        assert m[k] in m;
      }
    }
    if forall e | e in t :: e.ingested {
      forall e | e in m ensures e.ingested || Readable(c.responses, e.id) {
        var k :| 0 <= k < |m| && m[k] == e;
        assert t[k] in t;
      }
    }
  }

  // ---- duplicate targets ----

  predicate OnePerTarget(manifest: seq<Entry>) {
    forall i, j | 0 <= i < j < |manifest| :: manifest[i].target != manifest[j].target
  }

  /** One request per target holds after a call exactly when the targets it still has to request are
      distinct: a target repeated within one call gets a request each time. */
  lemma OneRequestPerTarget(s: State, c: Call, sanitize: Sanitizer)
    requires OnePerTarget(s.manifest)
    ensures OnePerTarget(Step(s, c, sanitize).manifest) <==> Distinct(Unrequested(Targets(s.manifest), c.targets))
  {
    hide Arrivals, Readable;
    var asked := Unrequested(Targets(s.manifest), c.targets);
    var t := Step(s, c, sanitize).manifest;
    var n := |s.manifest|;
    assert |t| == n + |asked|;
    forall k | 0 <= k < n ensures t[k].target == s.manifest[k].target && t[k].target in Targets(s.manifest) {
      assert Emit(s, c.targets).manifest[k] == s.manifest[k];
    }
    forall k | 0 <= k < |asked| ensures t[n + k].target == asked[k] {
      assert Emit(s, c.targets).manifest[n + k] == Requests(s.nextId, asked)[k];
    }
    if OnePerTarget(t) {
      forall i, j | 0 <= i < j < |asked| ensures asked[i] != asked[j] {
        assert t[n + i].target != t[n + j].target;
      }
    }
    if Distinct(asked) {
      forall i, j | 0 <= i < j < |t| ensures t[i].target != t[j].target {
        if n <= j {
          assert t[j].target == t[n + (j - n)].target == asked[j - n] && asked[j - n] in asked;
          if n <= i {
            assert t[i].target == t[n + (i - n)].target == asked[i - n];
          }
        }
      }
    }
  }

  /** Asking for one target twice in a first call sends two requests for it. */
  lemma RepeatedInOneCall(target: string, sanitize: Sanitizer)
    ensures Step(START, Call([target, target], map[]), sanitize).manifest ==
            [Entry(0, target, false), Entry(1, target, false)]
  {
    var targets := [target, target];
    assert targets[..1] == [target] && targets[..1][..0] == [];
    assert Unrequested({}, [target]) == [target];
    assert Unrequested({}, targets) == [target, target];
    assert Targets([]) == {};
  }

  // ---- the order of arrival does not matter ----

  /** The records of the well-formed items of a response, item by item. */
  ghost function RecordsOfItems(target: string, items: seq<Item>, sanitize: Sanitizer): multiset<Record> {
    if items == [] then multiset{}
    else
      var last := items[|items| - 1];
      RecordsOfItems(target, items[..|items| - 1], sanitize) +
      if last.Item?
      then multiset{Record(target, RelayFinding(last.finding, sanitize(last.notes).0, sanitize(last.notes).1))}
      else multiset{}
  }

  lemma {:induction false} IngestedItems(id: nat, target: string, items: seq<Item>, sanitize: Sanitizer)
    ensures multiset(Ingestion(id, target, Adapt(sanitize, items)).Records()) == RecordsOfItems(target, items, sanitize)
  {
    if items != [] {
      var init, last := items[..|items| - 1], items[|items| - 1];
      IngestedItems(id, target, init, sanitize);
      AdaptStep(sanitize, items);
      if last.Item? {
        hide Adapt, Ingestion.Records;
        OneMoreRecord(id, target, Adapt(sanitize, init), Cleaned(sanitize, last));
      }
    }
  }

  /** The records an ingested entry accounts for when its response is the one `all` gives. */
  ghost function DueOf(e: Entry, all: Responses, sanitize: Sanitizer): multiset<Record> {
    if e.ingested && Readable(all, e.id) then RecordsOfItems(e.target, all[e.id].items, sanitize) else multiset{}
  }

  ghost function Due(manifest: seq<Entry>, all: Responses, sanitize: Sanitizer): multiset<Record> {
    if manifest == [] then multiset{}
    else Due(manifest[..|manifest| - 1], all, sanitize) + DueOf(manifest[|manifest| - 1], all, sanitize)
  }

  /** The responses seen so far are those of `all`, which no one rewrites. */
  ghost predicate Reveals(all: Responses, responses: Responses) {
    forall id | Readable(responses, id) :: Readable(all, id) && all[id] == responses[id]
  }

  lemma DueAfterOne(e: Entry, responses: Responses, all: Responses, sanitize: Sanitizer)
    requires Reveals(all, responses)
    ensures DueOf(Marked(e, responses), all, sanitize) ==
            DueOf(e, all, sanitize) + multiset(Records(ArrivalOf(e, responses, sanitize)))
  {
    hide Adapt, Ingestion.Records;
    if Arrives(e, responses) {
      var taken := Taken(e, responses, sanitize);
      assert [taken][..0] == [] && Records([taken]) == [] + taken.Records() == taken.Records();
      IngestedItems(e.id, e.target, responses[e.id].items, sanitize);
    }
  }

  lemma {:induction false} DueAfterMarking(manifest: seq<Entry>, responses: Responses, all: Responses,
                                           sanitize: Sanitizer)
    requires Reveals(all, responses)
    ensures Due(MarkAll(manifest, responses), all, sanitize) ==
            Due(manifest, all, sanitize) + multiset(Records(Arrivals(manifest, responses, sanitize)))
  {
    hide Adapt, Ingestion.Records, Readable, Reveals, ArrivalOf, DueOf, Marked, Records;
    var m, arrivals := MarkAll(manifest, responses), Arrivals(manifest, responses, sanitize);
    if manifest == [] {
      assert Records([]) == [] by { NoRecords(); }
    } else {
      var init, last := manifest[..|manifest| - 1], manifest[|manifest| - 1];
      DueAfterMarking(init, responses, all, sanitize);
      DueAfterOne(last, responses, all, sanitize);
      RecordsGrow(Arrivals(init, responses, sanitize), ArrivalOf(last, responses, sanitize));
      assert m[..|m| - 1] == MarkAll(init, responses);
    }
  }

  lemma NoRecords()
    ensures Records([]) == []
  {
  }

  lemma DueAppend(manifest: seq<Entry>, e: Entry, all: Responses, sanitize: Sanitizer)
    ensures Due(manifest + [e], all, sanitize) == Due(manifest, all, sanitize) + DueOf(e, all, sanitize)
  {
    hide DueOf;
    assert (manifest + [e])[..|manifest|] == manifest;
  }

  lemma {:induction false} DueAfterEmitting(manifest: seq<Entry>, nextId: nat, asked: seq<string>, all: Responses,
                                            sanitize: Sanitizer)
    ensures Due(manifest + Requests(nextId, asked), all, sanitize) == Due(manifest, all, sanitize)
    decreases |asked|
  {
    hide Due;
    if asked == [] {
      assert manifest + Requests(nextId, asked) == manifest;
    } else {
      var init, last := asked[..|asked| - 1], Entry(nextId + |asked| - 1, asked[|asked| - 1], false);
      DueAfterEmitting(manifest, nextId, init, all, sanitize);
      DueAppend(manifest + Requests(nextId, init), last, all, sanitize);
      assert manifest + Requests(nextId, asked) == manifest + Requests(nextId, init) + [last];
    }
  }

  /** However the responses trickle in over the calls, the memory holds, as a multiset, exactly the findings
      of the responses to the ingested entries: each of them once. */
  lemma {:induction false} ArrivalOrderDoesNotMatter(calls: seq<Call>, all: Responses, sanitize: Sanitizer)
    requires forall c | c in calls :: Reveals(all, c.responses)
    ensures var s := Run(START, calls, sanitize); multiset(Records(s.log)) == Due(s.manifest, all, sanitize)
  {
    hide Adapt, Reveals, Arrivals, MarkAll, Unrequested, Requests;
    if calls == [] {
    } else {
      var init, c := calls[..|calls| - 1], calls[|calls| - 1];
      ArrivalOrderDoesNotMatter(init, all, sanitize);
      var s := Run(START, init, sanitize);
      var m := Emit(s, c.targets);
      DueAfterEmitting(s.manifest, s.nextId, Unrequested(Targets(s.manifest), c.targets), all, sanitize);
      DueAfterMarking(m.manifest, c.responses, all, sanitize);
      RecordsGrow(s.log, Arrivals(m.manifest, c.responses, sanitize));
    }
  }
}
