/**
 * Patches of presence in Redis: the fields are read in one command and written back, changed, in a later one.
 * It is said exactly when a write-back does what the change made at that moment would have done.
 */
module PatchRaces {
  import opened Common
  import opened PresenceSpec
  import opened PresenceScripts

  // A patch that has read the fields and not yet written them back; what the member had when it was read.
  datatype Patching = Patching(key: Key, read: Stored, change: Change)

  /** `fields` is the hash; `reference` the hash if every change had been made in one step, at its write. */
  datatype World = World(fields: map<Key, Stored>, reference: map<Key, Stored>, patches: map<nat, Patching>)

  const START := World(map[], map[], map[])

  // Admission replaces the fields of a member, and cleaning up removes them.
  datatype Step = Admit(key: Key, fields: Stored) | Remove(key: Key) | Read(id: nat, key: Key, change: Change) | WriteBack(id: nat, now: int)

  function Apply(f: Stored, c: Change, now: int): Stored {
    var p := Changed(f.role, f.muted, f.hand, c, now);
    Stored(p.0, p.1, p.2)
  }

  function ApplyAt(fields: map<Key, Stored>, key: Key, c: Change, now: int): map<Key, Stored> {
    if key in fields then fields[key := Apply(fields[key], c, now)] else fields
  }

  function Next(w: World, step: Step): World {
    match step
    case Admit(key, fields) => w.(fields := w.fields[key := fields], reference := w.reference[key := fields])
    case Remove(key) => w.(fields := w.fields - {key}, reference := w.reference - {key})
    case Read(id, key, change) =>
      if key in w.fields then w.(patches := w.patches[id := Patching(key, w.fields[key], change)]) else w
    case WriteBack(id, now) =>
      if id !in w.patches then w
      else
        var p := w.patches[id];
        World(w.fields[p.key := Apply(p.read, p.change, now)], ApplyAt(w.reference, p.key, p.change, now), w.patches - {id})
  }

  /** One command after the other, reading and writing back is the patch of the store. */
  lemma AtOnceIsPatch(s: Redis, key: Key, change: Change, now: int, id: nat)
    ensures var w' := Next(Next(World(s.hash, s.hash, map[]), Read(id, key, change)), WriteBack(id, now));
      w'.fields == PatchFields(s, key, change, now).hash && w'.patches == map[]
  {
  }

  // ---- when nothing is lost ----

  // Two states of the fields that differ in nothing but what the change sets anyway.
  predicate SameBut(c: Change, f: Stored, g: Stored, now: int) {
    match c
    case SetRole(_) => f.muted == g.muted && f.hand == g.hand
    case SetMuted(_) => f.role == g.role && f.hand == g.hand
    case SetHand(raised) => f.role == g.role && f.muted == g.muted && (raised ==> f.hand.GetOr(now) == g.hand.GetOr(now))
  }

  lemma SameButIff(c: Change, f: Stored, g: Stored, now: int)
    ensures Apply(f, c, now) == Apply(g, c, now) <==> SameBut(c, f, g, now)
  {
  }

  // The fields are still there, and what else is in them is what was read.
  predicate IsFaithful(w: World, step: Step) {
    step.WriteBack? && step.id in w.patches ==>
      var p := w.patches[step.id];
      p.key in w.fields && SameBut(p.change, p.read, w.fields[p.key], step.now)
  }

  predicate AllFaithful(w: World, steps: seq<Step>)
    decreases |steps|
  {
    steps == [] || (IsFaithful(w, steps[0]) && AllFaithful(Next(w, steps[0]), steps[1..]))
  }

  // After each step the fields are what they would be if every change had been made at once.
  predicate LosesNothing(w: World, steps: seq<Step>)
    decreases |steps|
  {
    steps == [] || (Next(w, steps[0]).fields == Next(w, steps[0]).reference && LosesNothing(Next(w, steps[0]), steps[1..]))
  }

  /**
   * Over every run of patches, admissions and clean-ups, interleaved in any way, no change is lost or undone,
   * if and only if every write-back finds the fields there and, besides what it sets itself, as it read them.
   */
  lemma NothingIsLostIff(steps: seq<Step>)
    ensures LosesNothing(START, steps) <==> AllFaithful(START, steps)
  {
    RunLosesNothingIff(START, steps);
  }

  lemma {:induction false} RunLosesNothingIff(w: World, steps: seq<Step>)
    requires w.fields == w.reference
    ensures LosesNothing(w, steps) <==> AllFaithful(w, steps)
    decreases |steps|
  {
    if steps != [] {
      StepLosesNothingIff(w, steps[0]);
      if IsFaithful(w, steps[0]) { RunLosesNothingIff(Next(w, steps[0]), steps[1..]); }
    }
  }

  lemma StepLosesNothingIff(w: World, step: Step)
    requires w.fields == w.reference
    ensures Next(w, step).fields == Next(w, step).reference <==> IsFaithful(w, step)
  {
    if step.WriteBack? && step.id in w.patches {
      var p := w.patches[step.id];
      if p.key in w.fields { SameButIff(p.change, p.read, w.fields[p.key], step.now); }
      assert Next(w, step).fields[p.key] == Apply(p.read, p.change, step.now);
    }
  }

  // ---- a run in which a mute is lost ----

  // A listener raises a hand while the host mutes it: both read, the mute is written, then the hand.
  function HandDuringMute(key: Key, now: int): seq<Step> {
    [Admit(key, Stored(Listener, false, None)), Read(1, key, SetHand(true)), Read(2, key, SetMuted(true)), WriteBack(2, now), WriteBack(1, now)]
  }

  function After(w: World, steps: seq<Step>): World
    decreases |steps|
  {
    if steps == [] then w else After(Next(w, steps[0]), steps[1..])
  }

  /** The hand is up, and the member is not muted though nobody unmuted it. */
  lemma RaisedHandUndoesMute(key: Key, now: int)
    ensures var w := After(START, HandDuringMute(key, now));
      && key in w.fields && w.fields[key] == Stored(Listener, false, Some(now))
      && key in w.reference && w.reference[key] == Stored(Listener, true, Some(now))
  {
    var steps, listener := HandDuringMute(key, now), Stored(Listener, false, None);
    var w3 := Next(Next(Next(START, steps[0]), steps[1]), steps[2]);
    assert w3.patches == map[1 := Patching(key, listener, SetHand(true)), 2 := Patching(key, listener, SetMuted(true))];
    var w5 := Next(Next(w3, steps[3]), steps[4]);
    assert steps[1..][1..] == steps[2..] && steps[2..][1..] == steps[3..] && steps[3..][1..] == steps[4..] && steps[4..][1..] == [];
    assert After(w3, steps[3..]) == After(Next(w3, steps[3]), steps[4..]) == After(w5, []) == w5;
    assert After(START, steps) == After(Next(START, steps[0]), steps[1..]) == After(Next(Next(START, steps[0]), steps[1]), steps[2..]) == After(w3, steps[3..]);
  }
}
