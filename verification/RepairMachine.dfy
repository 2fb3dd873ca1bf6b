/** One directory over any number of opens, with the process or the power failing at any step. */
module RepairMachine {
  import opened Options
  import opened Repair
  import opened Marker

  /** A file, whether its bytes are on the device, and which open wrote it, kept to speak about. */
  datatype Stored = Stored(file: File, synced: bool, writer: nat)

  /** `earlier` is what the marker's name pointed at before the last rename, which a power failure
      may bring back: the directory itself is never synced. */
  datatype Disk = Disk(marker: Option<Stored>, partial: Option<Stored>, earlier: Option<Stored>)

  /** Where an open is. The `first` and `repair` answers are those of the visit under way. */
  datatype At =
    | Down
    | Starting
    | Listing
    | Checking(left: seq<nat>, complete: bool)
    | Repairing(left: seq<nat>, complete: bool, first: Answer)
    | Rechecking(left: seq<nat>, complete: bool, first: Answer, repair: Answer)
    | Creating
    | Writing
    | Syncing
    | Publishing
    | Cleaning

  /** One open: what it found the directory to be, and what the pass it made, if it made one, was
      told. */
  datatype Opened = Opened(empty: bool, catalog: Option<Catalog>, visits: seq<Visit>)

  const NONE := Opened(false, None, [])

  /** `now` is the open under way, or the last one. */
  datatype Machine = Machine(disk: Disk, at: At, now: Opened, past: seq<Opened>)

  datatype Step =
    | Start(empty: bool)
    | Begin(skip: bool)
    | List(catalog: Option<Catalog>)
    | Validate(answer: Answer)
    | Settle
    | Create(ok: bool)
    | Write(written: Option<nat>)
    | Sync(ok: bool)
    | Publish(ok: bool)
    | Clean(ok: bool)
    | Crash
    | PowerLoss(undo: bool, cut: nat, partial: Option<Stored>)

  predicate Enabled(m: Machine, step: Step) {
    match step
    case Start(_) => m.at.Down?
    case Begin(_) => m.at.Starting?
    case List(_) => m.at.Listing?
    case Validate(_) => (m.at.Checking? || m.at.Repairing? || m.at.Rechecking?) && m.at.left != []
    case Settle => m.at.Checking? && m.at.left == []
    case Create(_) => m.at.Creating?
    case Write(_) => m.at.Writing?
    case Sync(_) => m.at.Syncing?
    case Publish(_) => m.at.Publishing?
    case Clean(_) => m.at.Cleaning?
    case Crash => true
    case PowerLoss(_, _, _) => true
  }

  function Held(stored: Option<Stored>): Option<File> {
    match stored case Some(s) => Some(s.file) case None => None
  }

  /** What the marker reads as. */
  predicate Marked(m: Machine) { Recorded(Held(m.disk.marker)) }

  function Apply(text: string, m: Machine, step: Step): Machine
    requires Enabled(m, step)
  {
    match step
    case Start(empty) => m.(at := Starting, now := Opened(empty, None, []), past := m.past + [m.now])
    case Begin(skip) => m.(at := if skip || Marked(m) then Down else if m.now.empty then Creating else Listing)
    case List(catalog) => Listed(m, catalog)
    case Validate(answer) => Answered(m, answer)
    case Settle => m.(at := if m.at.complete then Creating else Down)
    case Create(ok) =>
      if !ok then m.(at := Cleaning)
      else m.(at := Writing, disk := m.disk.(partial := Some(Stored(Text(""), false, |m.past|))))
    case Write(written) =>
      var bytes := if written.Some? && written.value < |text| then text[..written.value] else text;
      m.(at := if written.Some? then Cleaning else Syncing,
         disk := m.disk.(partial := Some(Stored(Text(bytes), false, |m.past|))))
    case Sync(ok) =>
      if !ok || m.disk.partial.None? then m.(at := Cleaning)
      else m.(at := Publishing, disk := m.disk.(partial := Some(m.disk.partial.value.(synced := true))))
    case Publish(ok) => m.(at := Down, disk := if ok then Disk(m.disk.partial, None, m.disk.marker) else m.disk)
    case Clean(ok) => m.(at := Down, disk := if ok then m.disk.(partial := None) else m.disk)
    case Crash => m.(at := Down)
    case PowerLoss(undo, cut, partial) =>
      var kept := AfterLoss(if undo then m.disk.earlier else m.disk.marker, cut);
      m.(at := Down, disk := Disk(kept, partial, kept))
  }

  /** Bytes not on the device may be lost from any point on. */
  function AfterLoss(stored: Option<Stored>, cut: nat): Option<Stored> {
    match stored
    case Some(Stored(Text(text), false, writer)) =>
      Some(Stored(Text(text[..if cut < |text| then cut else |text|]), true, writer))
    case _ => stored
  }

  function Listed(m: Machine, catalog: Option<Catalog>): Machine {
    if catalog.None? then m.(at := Down)
    else
      m.(now := m.now.(catalog := catalog),
         at := if catalog.value.Suspect() then Down else Checking(catalog.value.namespaces, true))
  }

  /** One answer to `validate`, and where it takes the visit. */
  function Answered(m: Machine, answer: Answer): Machine
    requires Enabled(m, Validate(answer))
  {
    match m.at
    case Checking(left, complete) =>
      if answer.Failed? then Over(m, left, complete, false, Visit(left[0], answer, Failed, Failed))
      else
        (match ParseHealth(answer.reply)
         case Sound => Over(m, left, complete, true, Visit(left[0], answer, Failed, Failed))
         case Inconclusive(_) => Over(m, left, complete, false, Visit(left[0], answer, Failed, Failed))
         case Damaged(_, _) => m.(at := Repairing(left, complete, answer)))
    case Repairing(left, complete, first) =>
      if answer.Failed? then Over(m, left, complete, false, Visit(left[0], first, answer, Failed))
      else m.(at := Rechecking(left, complete, first, answer))
    case Rechecking(left, complete, first, repair) =>
      Over(m, left, complete, answer.Replied? && !ParseHealth(answer.reply).Inconclusive?,
           Visit(left[0], first, repair, answer))
  }

  /** A visit is over, with or without a verdict, and the sweep goes on. */
  function Over(m: Machine, left: seq<nat>, complete: bool, ok: bool, visit: Visit): Machine
    requires left != []
  {
    m.(at := Checking(left[1..], complete && ok), now := m.now.(visits := m.now.visits + [visit]))
  }

  function Execute(text: string, m: Machine, steps: seq<Step>): Machine
    decreases |steps|
  {
    if steps == [] then m
    else Execute(text, if Enabled(m, steps[0]) then Apply(text, m, steps[0]) else m, steps[1..])
  }

  // ---- what a marker may mean

  /** An open that had reason to write a marker: it found nothing there yet; or in that one open
      the directory was listed, not suspiciously, and every collection listed came to a verdict. */
  predicate Justified(o: Opened) {
    || o.empty
    || (&& o.catalog.Some? && !(o.catalog.value.databases > 0 && o.catalog.value.namespaces == [])
        && |o.visits| == |o.catalog.value.namespaces|
        && forall i | 0 <= i < |o.visits| ::
             o.visits[i].namespace == o.catalog.value.namespaces[i] && o.visits[i].Conclusive())
  }

  /** The open under way, part of the way through its sweep. */
  predicate Sweeping(o: Opened, left: seq<nat>, complete: bool) {
    && o.catalog.Some? && !o.catalog.value.Suspect()
    && |o.visits| + |left| == |o.catalog.value.namespaces|
    && o.catalog.value.namespaces[|o.visits|..] == left
    && (forall i | 0 <= i < |o.visits| :: o.visits[i].namespace == o.catalog.value.namespaces[i])
    && (complete <==> forall i | 0 <= i < |o.visits| :: o.visits[i].Conclusive())
  }

  predicate InOpen(at: At, o: Opened) {
    match at
    case Down => true
    case Starting => o.visits == [] && o.catalog.None?
    case Listing => o.visits == [] && o.catalog.None?
    case Checking(left, complete) => Sweeping(o, left, complete)
    case Repairing(left, complete, first) =>
      && left != [] && Sweeping(o, left, complete)
      && first.Replied? && ParseHealth(first.reply).Damaged?
    case Rechecking(left, complete, first, repair) =>
      && left != [] && Sweeping(o, left, complete)
      && first.Replied? && ParseHealth(first.reply).Damaged? && repair.Replied?
    case _ => Justified(o)
  }

  /** The opens there have been, counting the one before this build's first. */
  function Opens(m: Machine): seq<Opened> { m.past + [m.now] }

  /** A marker on the device is whole, and the open that wrote it had reason to. */
  predicate Honest(text: string, stored: Option<Stored>, opens: seq<Opened>) {
    && (stored.Some? ==> stored.value.synced)
    && (Recorded(Held(stored)) ==>
          stored.value.file == Text(text) && stored.value.writer < |opens| && Justified(opens[stored.value.writer]))
  }

  /** A marker of an earlier open cannot be this one's: an open that has begun found none recorded. */
  predicate Earlier(stored: Option<Stored>, m: Machine) {
    Recorded(Held(stored)) && stored.value.writer == |m.past| ==> m.at.Down?
  }

  predicate Inv(text: string, m: Machine) {
    && Honest(text, m.disk.marker, Opens(m)) && Honest(text, m.disk.earlier, Opens(m))
    && Earlier(m.disk.marker, m) && Earlier(m.disk.earlier, m)
    && InOpen(m.at, m.now)
    && (m.at.Syncing? ==> m.disk.partial == Some(Stored(Text(text), false, |m.past|)))
    && (m.at.Publishing? ==> m.disk.partial == Some(Stored(Text(text), true, |m.past|)))
  }

  lemma {:induction false} StillHonest(text: string, stored: Option<Stored>, opens: seq<Opened>, opens': seq<Opened>)
    requires Honest(text, stored, opens)
    requires Recorded(Held(stored)) ==>
               stored.value.writer < |opens'| && opens'[stored.value.writer] == opens[stored.value.writer]
    ensures Honest(text, stored, opens')
  {
    hide Recorded, Justified;
  }

  lemma {:induction false} KeepsStart(text: string, m: Machine, empty: bool)
    requires Inv(text, m) && m.at.Down?
    ensures Inv(text, Apply(text, m, Start(empty)))
  {
    hide Recorded, Justified;
    var m' := Apply(text, m, Start(empty));
    assert Opens(m') == Opens(m) + [m'.now];
    StillHonest(text, m.disk.marker, Opens(m), Opens(m'));
    StillHonest(text, m.disk.earlier, Opens(m), Opens(m'));
  }

  /** What is learned of the open under way changes no earlier one. */
  lemma {:induction false} KeepsNow(text: string, m: Machine, m': Machine)
    requires Inv(text, m) && !m.at.Down? && m'.disk == m.disk && m'.past == m.past
    requires InOpen(m'.at, m'.now) && !m'.at.Syncing? && !m'.at.Publishing?
    ensures Inv(text, m')
  {
    hide Recorded, Justified;
    StillHonest(text, m.disk.marker, Opens(m), Opens(m'));
    StillHonest(text, m.disk.earlier, Opens(m), Opens(m'));
  }

  lemma {:induction false} KeepsListed(text: string, m: Machine, catalog: Option<Catalog>)
    requires Inv(text, m) && m.at.Listing?
    ensures Inv(text, Listed(m, catalog))
  {
    hide Honest, Earlier;
    var m' := Listed(m, catalog);
    if catalog.Some? && !catalog.value.Suspect() {
      assert Sweeping(m'.now, catalog.value.namespaces, true);
    }
    KeepsNow(text, m, m');
  }

  lemma {:induction false} KeepsOver(text: string, m: Machine, left: seq<nat>, complete: bool, ok: bool, visit: Visit)
    requires Inv(text, m) && !m.at.Down? && left != [] && Sweeping(m.now, left, complete) && visit.namespace == left[0]
    requires ok <==> visit.Conclusive()
    ensures Inv(text, Over(m, left, complete, ok, visit))
  {
    hide Honest, Earlier, Visit.Conclusive;
    OverSweeps(m.now, left, complete, ok, visit);
    hide Sweeping;
    KeepsNow(text, m, Over(m, left, complete, ok, visit));
  }

  lemma {:induction false} OverSweeps(o: Opened, left: seq<nat>, complete: bool, ok: bool, visit: Visit)
    requires left != [] && Sweeping(o, left, complete) && visit.namespace == left[0]
    requires ok <==> visit.Conclusive()
    ensures Sweeping(o.(visits := o.visits + [visit]), left[1..], complete && ok)
  {
    hide Visit.Conclusive;
    var n := |o.visits|;
    assert o.catalog.value.namespaces[n] == left[0];
    assert o.catalog.value.namespaces[n + 1..] == left[1..];
  }

  lemma {:induction false} KeepsAnswered(text: string, m: Machine, answer: Answer)
    requires Inv(text, m) && Enabled(m, Validate(answer))
    ensures Inv(text, Answered(m, answer))
  {
    hide Honest, Earlier, Over, Sweeping;
    if answer.Replied? {
      HealthMeans(answer.reply);
    }
    hide ParseHealth, Threw;
    match m.at
    case Checking(left, complete) =>
      if answer.Failed? || !ParseHealth(answer.reply).Damaged? {
        KeepsOver(text, m, left, complete, answer.Replied? && ParseHealth(answer.reply).Sound?,
                  Visit(left[0], answer, Failed, Failed));
      } else {
        KeepsNow(text, m, Answered(m, answer));
      }
    case Repairing(left, complete, first) =>
      if answer.Failed? {
        KeepsOver(text, m, left, complete, false, Visit(left[0], first, answer, Failed));
      } else {
        KeepsNow(text, m, Answered(m, answer));
      }
    case Rechecking(left, complete, first, repair) =>
      KeepsOver(text, m, left, complete, answer.Replied? && !ParseHealth(answer.reply).Inconclusive?,
                Visit(left[0], first, repair, answer));
  }

  lemma {:induction false} KeepsLoss(text: string, m: Machine, undo: bool, cut: nat, partial: Option<Stored>)
    requires Inv(text, m)
    ensures Inv(text, Apply(text, m, PowerLoss(undo, cut, partial)))
  {
    hide Recorded, Justified;
  }

  lemma {:induction false} KeepsPublish(text: string, m: Machine, ok: bool)
    requires Inv(text, m) && m.at.Publishing?
    ensures Inv(text, Apply(text, m, Publish(ok)))
  {
    hide Recorded;
  }

  lemma {:induction false} Kept(text: string, m: Machine, step: Step)
    requires Inv(text, m) && Enabled(m, step)
    ensures Inv(text, Apply(text, m, step))
  {
    hide Recorded, Answered, Listed, Visit.Conclusive;
    match step {
      case Start(empty) => KeepsStart(text, m, empty);
      case List(catalog) => KeepsListed(text, m, catalog);
      case Validate(answer) => KeepsAnswered(text, m, answer);
      case PowerLoss(undo, cut, partial) => KeepsLoss(text, m, undo, cut, partial);
      case Publish(ok) => KeepsPublish(text, m, ok);
      case _ =>
    }
  }

  lemma {:induction false} Always(text: string, m: Machine, steps: seq<Step>)
    requires Inv(text, m)
    ensures Inv(text, Execute(text, m, steps))
    decreases |steps|
  {
    hide Inv, Apply, Enabled;
    if steps != [] {
      if Enabled(m, steps[0]) {
        Kept(text, m, steps[0]);
        Always(text, Apply(text, m, steps[0]), steps[1..]);
      } else {
        Always(text, m, steps[1..]);
      }
    }
  }

  /** A directory before this build ever opened it: whatever is there, it is no record. */
  function Before(marker: Option<File>, partial: Option<Stored>): Machine {
    var stored := match marker case Some(file) => Some(Stored(file, true, 0)) case None => None;
    Machine(Disk(stored, partial, stored), Down, NONE, [])
  }

  /** Over any opens, answers, errors, skips and crashes: a marker that reads as recorded is the
      whole of what is written, and the very open that wrote it had reason to. */
  lemma {:induction false} MarkerMeans(
      explanation: string, marker: Option<File>, partial: Option<Stored>, steps: seq<Step>)
    requires !Recorded(marker)
    ensures var m := Execute(Full(explanation), Before(marker, partial), steps);
            Marked(m) ==>
              && m.disk.marker.value.file == Text(Full(explanation))
              && m.disk.marker.value.writer < |Opens(m)| && Justified(Opens(m)[m.disk.marker.value.writer])
  {
    var text := Full(explanation);
    hide Full;
    assert Inv(text, Before(marker, partial));
    Always(text, Before(marker, partial), steps);
  }

  // ---- what an open does

  /** The visits under way agree with what they were told, in every run. */
  lemma {:induction false} SweepsExactly(
      explanation: string, marker: Option<File>, partial: Option<Stored>, steps: seq<Step>)
    requires !Recorded(marker)
    ensures var m := Execute(Full(explanation), Before(marker, partial), steps);
            Enabled(m, Settle) ==>
              && m.now.catalog.Some? && |m.now.visits| == |m.now.catalog.value.namespaces|
              && (forall i | 0 <= i < |m.now.visits| :: m.now.visits[i].namespace == m.now.catalog.value.namespaces[i])
              && (Apply(Full(explanation), m, Settle).at.Creating? <==>
                    forall i | 0 <= i < |m.now.visits| :: m.now.visits[i].Conclusive())
              && Apply(Full(explanation), m, Settle).disk == m.disk
  {
    var text := Full(explanation);
    hide Full, Visit.Conclusive;
    assert Inv(text, Before(marker, partial));
    Always(text, Before(marker, partial), steps);
    hide Execute, Before, Honest, Earlier;
  }

  /** An open that is to record does so, once nothing fails: the marker then reads as recorded, and
      as this open's. */
  lemma {:induction false} RecordsOnceDecided(explanation: string, m: Machine)
    requires m.at.Creating?
    ensures var m' := Execute(Full(explanation), m, [Create(true), Write(None), Sync(true), Publish(true)]);
            m'.at.Down? && Marked(m') && m'.disk.marker == Some(Stored(Text(Full(explanation)), true, |m.past|))
  {
    FullIsRecorded(explanation);
    var text := Full(explanation);
    hide Full, Recorded;
    var m1 := Apply(text, m, Create(true));
    var m2 := Apply(text, m1, Write(None));
    var m3 := Apply(text, m2, Sync(true));
    var m4 := Apply(text, m3, Publish(true));
    Taken(text, m, Create(true), [Write(None), Sync(true), Publish(true)]);
    Taken(text, m1, Write(None), [Sync(true), Publish(true)]);
    Taken(text, m2, Sync(true), [Publish(true)]);
    Taken(text, m3, Publish(true), []);
    assert Execute(text, m4, []) == m4;
  }

  lemma {:induction false} Taken(text: string, m: Machine, step: Step, rest: seq<Step>)
    requires Enabled(m, step)
    ensures Execute(text, m, [step] + rest) == Execute(text, Apply(text, m, step), rest)
  {
    hide Apply, Enabled;
    assert ([step] + rest)[1..] == rest;
  }

  /** How an open goes on: skipped, or over a record, it is done; over a directory that held nothing
      it records; over any other it lists the collections. Nothing is written by that. */
  lemma {:induction false} BeginsExactly(text: string, m: Machine, skip: bool)
    requires m.at.Starting?
    ensures var m' := Apply(text, m, Begin(skip));
            && m'.disk == m.disk && m'.now == m.now
            && (m'.at.Down? <==> skip || Marked(m))
            && (m'.at.Creating? <==> !skip && !Marked(m) && m.now.empty)
            && (m'.at.Listing? <==> !skip && !Marked(m) && !m.now.empty)
  {
  }

  /** A recorded directory is left alone by every later open, until its power fails: the disk stays as
      it is, and no collection is listed or looked at. */
  lemma {:induction false} RecordedIsLeftAlone(text: string, m: Machine, steps: seq<Step>)
    requires Marked(m) && (m.at.Down? || m.at.Starting?) && forall step | step in steps :: !step.PowerLoss?
    ensures var m' := Execute(text, m, steps);
            && m'.disk == m.disk && (m'.at.Down? || m'.at.Starting?) && |m.past| <= |m'.past|
            && (forall i | |m.past| < i <= |m'.past| :: Opens(m')[i].catalog.None? && Opens(m')[i].visits == [])
            && Opens(m')[|m.past|] == m.now
    decreases |steps|
  {
    hide Recorded, Justified;
    if steps != [] {
      if Enabled(m, steps[0]) {
        var m1 := Apply(text, m, steps[0]);
        assert steps[0] in steps;
        RecordedIsLeftAlone(text, m1, steps[1..]);
        var m' := Execute(text, m1, steps[1..]);
        if steps[0].Start? {
          assert m1.past == m.past + [m.now];
          EarlierOpensStay(text, m1, steps[1..]);
        }
      } else {
        RecordedIsLeftAlone(text, m, steps[1..]);
      }
    }
  }

  /** The opens before this one are over, and stay as they were. */
  lemma {:induction false} EarlierOpensStay(text: string, m: Machine, steps: seq<Step>)
    ensures m.past <= Execute(text, m, steps).past
    decreases |steps|
  {
    if steps != [] {
      if Enabled(m, steps[0]) {
        PastGrows(text, m, steps[0]);
        hide Apply, Enabled;
        EarlierOpensStay(text, Apply(text, m, steps[0]), steps[1..]);
      } else {
        EarlierOpensStay(text, m, steps[1..]);
      }
    }
  }

  lemma {:induction false} PastGrows(text: string, m: Machine, step: Step)
    requires Enabled(m, step)
    ensures m.past <= Apply(text, m, step).past
  {
    hide Recorded, ParseHealth;
  }

  /** A listing that fails, or that names databases and no collection in any, ends the open with
      nothing written; any other is gone through from its first collection. */
  lemma {:induction false} ListsExactly(text: string, m: Machine, catalog: Option<Catalog>)
    requires m.at.Listing?
    ensures var m' := Apply(text, m, List(catalog));
            && m'.disk == m.disk && m'.past == m.past && m'.now.visits == m.now.visits
            && (m'.at.Down? <==> catalog.None? || (catalog.value.databases > 0 && catalog.value.namespaces == []))
            && (!m'.at.Down? ==> m'.at == Checking(catalog.value.namespaces, true) && m'.now.catalog == catalog)
  {
  }

  /** An answer ends a visit with what has been learned, unless it says that the collection is damaged,
      which is repaired, or that it has been repaired, which is checked. */
  lemma {:induction false} AnswersExactly(text: string, m: Machine, answer: Answer)
    requires Enabled(m, Validate(answer))
    ensures var m' := Apply(text, m, Validate(answer));
            var damaged := answer.Replied? && ParseHealth(answer.reply).Damaged?;
            && m'.disk == m.disk && m'.past == m.past
            && (m.at.Checking? && damaged ==> m'.now == m.now && m'.at == Repairing(m.at.left, m.at.complete, answer))
            && (m.at.Repairing? && answer.Replied? ==>
                  m'.now == m.now && m'.at == Rechecking(m.at.left, m.at.complete, m.at.first, answer))
            && (!(m.at.Checking? && damaged) && !(m.at.Repairing? && answer.Replied?) ==>
                  && |m'.now.visits| == |m.now.visits| + 1 && m.now.visits <= m'.now.visits
                  && m'.at.Checking? && m'.at.left == m.at.left[1..]
                  && m'.now.visits[|m.now.visits|] ==
                     match m.at
                     case Checking(left, _) => Visit(left[0], answer, Failed, Failed)
                     case Repairing(left, _, first) => Visit(left[0], first, answer, Failed)
                     case Rechecking(left, _, first, repair) => Visit(left[0], first, repair, answer))
  {
    hide ParseHealth, Recorded;
  }

  /** A failure anywhere in writing is cleaned up after, and the marker is untouched by all of it but the
      rename that succeeds. */
  lemma {:induction false} WritesExactly(text: string, m: Machine, ok: bool, written: nat)
    ensures m.at.Creating? ==> (Apply(text, m, Create(ok)).at == if ok then Writing else Cleaning)
    ensures m.at.Writing? ==>
              Apply(text, m, Write(None)).at == Syncing && Apply(text, m, Write(Some(written))).at == Cleaning
    ensures m.at.Syncing? && m.disk.partial.Some? ==>
              (Apply(text, m, Sync(ok)).at == if ok then Publishing else Cleaning)
    ensures m.at.Publishing? ==>
              Apply(text, m, Publish(ok)).at == Down
              && Apply(text, m, Publish(ok)).disk == if ok then Disk(m.disk.partial, None, m.disk.marker) else m.disk
    ensures m.at.Cleaning? ==>
              Apply(text, m, Clean(ok)) == m.(at := Down, disk := if ok then m.disk.(partial := None) else m.disk)
  {
  }

  /** The process can die at any step, and leaves the disk as it was; the power can fail at any step, and
      leaves under the marker's name what was there, or what was there before the last rename, less
      any bytes that had not reached the device. */
  lemma {:induction false} DiesAnywhere(text: string, m: Machine, undo: bool, cut: nat, partial: Option<Stored>)
    ensures Enabled(m, Crash) && Apply(text, m, Crash) == m.(at := Down)
    ensures Enabled(m, PowerLoss(undo, cut, partial))
    ensures var m' := Apply(text, m, PowerLoss(undo, cut, partial));
            var kept := if undo then m.disk.earlier else m.disk.marker;
            && m'.at == Down && m'.now == m.now && m'.past == m.past && m'.disk.partial == partial
            && (m'.disk.marker.Some? <==> kept.Some?)
            && (kept.Some? && kept.value.synced ==> m'.disk.marker == kept)
            && (kept.Some? && !kept.value.synced && kept.value.file.Text? ==>
                  && m'.disk.marker.value.file.Text? && m'.disk.marker.value.file.text <= kept.value.file.text
                  && |m'.disk.marker.value.file.text| == Least(cut, |kept.value.file.text|))
  {
  }

  function Least(a: nat, b: nat): nat { if a < b then a else b }

  /** While an open is under way it can go on, whatever it is answered. */
  lemma {:induction false} NeverStuck(m: Machine, answer: Answer, ok: bool)
    requires m.at.Repairing? || m.at.Rechecking? ==> m.at.left != []
    ensures m.at.Down? <==> Enabled(m, Start(ok))
    ensures !m.at.Down? ==>
              || Enabled(m, Begin(ok)) || Enabled(m, List(None)) || Enabled(m, Validate(answer)) || Enabled(m, Settle)
              || Enabled(m, Create(ok)) || Enabled(m, Write(None)) || Enabled(m, Sync(ok)) || Enabled(m, Publish(ok))
              || Enabled(m, Clean(ok))
  {
  }

  /** How far an open has to go: before the listing, and after it. */
  function Stage(at: At): nat { if at.Starting? then 2 else if at.Listing? then 1 else 0 }

  function Remaining(at: At): nat {
    match at
    case Checking(left, _) => 3 * |left| + 8
    case Repairing(left, _, _) => 3 * |left| + 7
    case Rechecking(left, _, _, _) => 3 * |left| + 6
    case Creating => 5
    case Writing => 4
    case Syncing => 3
    case Publishing => 2
    case Cleaning => 1
    case _ => 0
  }

  /** And every step of an open brings its end nearer. */
  lemma {:induction false} NearerToTheEnd(text: string, m: Machine, step: Step)
    requires Enabled(m, step) && !step.Start? && !step.Crash? && !step.PowerLoss?
    ensures var at, at' := m.at, Apply(text, m, step).at;
            Stage(at') < Stage(at) || (Stage(at') == Stage(at) && Remaining(at') < Remaining(at))
  {
    hide ParseHealth, Recorded;
  }
}
