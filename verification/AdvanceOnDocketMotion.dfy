/** The registry of motions to advance an appeal on the docket. */
module AdvanceOnDocketMotions {
  import opened Prelude

  datatype Reason = FinancialDistress | Age | SeriousIllness | Other

  datatype Motion = Motion(appeal: nat, person: nat, reason: Reason, granted: bool)

  /** What a motion is about: age motions and all others are kept apart. */
  datatype Key = Key(appeal: nat, person: nat, age: bool)

  datatype Ruling = Ruling(reason: Reason, granted: bool)

  function KeyOf(m: Motion): Key {
    Key(m.appeal, m.person, m.reason == Age)
  }

  predicate NonAgeRelated(m: Motion) {
    m.reason in {FinancialDistress, SeriousIllness, Other}
  }

  /** At most one age motion and at most one other motion for an appeal and a person. */
  predicate OnePerKind(motions: seq<Motion>) {
    forall i, j :: 0 <= i < j < |motions| ==> KeyOf(motions[i]) != KeyOf(motions[j])
  }

  /** The last row that satisfies `p`, or the number of rows. */
  function LastSuch(motions: seq<Motion>, p: Motion -> bool): (r: nat)
    ensures r <= |motions|
    ensures r < |motions| ==> p(motions[r])
    ensures r < |motions| ==> forall i :: r < i < |motions| ==> !p(motions[i])
    ensures r == |motions| ==> forall i :: 0 <= i < |motions| ==> !p(motions[i])
  {
    if motions == [] then 0
    else
      var n := |motions| - 1;
      if p(motions[n]) then n
      else
        var k := LastSuch(motions[..n], p);
        if k == n then |motions| else k
  }

  /** The last ruling on record. */
  function RulingOn(motions: seq<Motion>, key: Key): Option<Ruling> {
    var k := LastSuch(motions, (m: Motion) => KeyOf(m) == key);
    if k == |motions| then None else Some(Ruling(motions[k].reason, motions[k].granted))
  }

  function LastWithReason(motions: seq<Motion>, appeal: nat, person: nat, reason: Reason): (r: nat)
    ensures r <= |motions|
  {
    LastSuch(motions, (row: Motion) => row.appeal == appeal && row.person == person && row.reason == reason)
  }

  function LastNonAge(motions: seq<Motion>, appeal: nat, person: nat): (r: nat)
    ensures r <= |motions|
  {
    LastSuch(motions, (row: Motion) => row.appeal == appeal && row.person == person && NonAgeRelated(row))
  }

  /** The row that takes the new ruling: the last with the same reason, else the last of the kind. */
  function Place(motions: seq<Motion>, m: Motion): (r: nat)
    ensures r <= |motions|
  {
    var same := LastWithReason(motions, m.appeal, m.person, m.reason);
    if same < |motions| || m.reason == Age then same else LastNonAge(motions, m.appeal, m.person)
  }

  function Updated(motions: seq<Motion>, m: Motion): seq<Motion> {
    if Place(motions, m) < |motions| then motions[Place(motions, m) := m] else motions + [m]
  }

  predicate Copied(m: Motion, src: nat, srcPeople: set<nat>, dstPeople: set<nat>) {
    m.appeal == src && m.granted && m.person in srcPeople && m.person in dstPeople
  }

  /** The granted motions of people of both appeals, as they are written for the other appeal. */
  function Copies(motions: seq<Motion>, src: nat, dst: nat, srcPeople: set<nat>, dstPeople: set<nat>): seq<Motion> {
    if motions == [] then []
    else
      var n := |motions| - 1;
      Copies(motions[..n], src, dst, srcPeople, dstPeople)
      + if Copied(motions[n], src, srcPeople, dstPeople) then [motions[n].(appeal := dst)] else []
  }

  /** The motions of the person the appeal is advanced by: those of the appeal itself and any due to age. */
  predicate GrantedForPerson(motions: seq<Motion>, person: nat, appeal: nat) {
    exists i :: 0 <= i < |motions| && motions[i].person == person && motions[i].granted
      && ((motions[i].appeal == appeal && motions[i].reason != Age) || motions[i].reason == Age)
  }

  class MotionTable {
    var motions: seq<Motion>

    /** `create_or_update_by_appeal` for the claimant's person. */
    method CreateOrUpdateByAppeal(appeal: nat, person: nat, reason: Reason, granted: bool)
      modifies this
      ensures motions == Updated(old(motions), Motion(appeal, person, reason, granted))
      ensures Motion(appeal, person, reason, granted) in motions
      ensures RulingOn(motions, Key(appeal, person, reason == Age)).Some?
      ensures OnePerKind(old(motions)) ==> OnePerKind(motions)
      ensures OnePerKind(old(motions)) ==> forall key: Key ::
        RulingOn(motions, key) ==
        if key == Key(appeal, person, reason == Age) then Some(Ruling(reason, granted)) else RulingOn(old(motions), key)
    {
      var m := Motion(appeal, person, reason, granted);
      ghost var before := motions;
      var motion := LastWithReason(motions, appeal, person, reason);
      var nonAge := LastNonAge(motions, appeal, person);
      if motion < |motions| {
        motions := motions[motion := motions[motion].(reason := reason, granted := granted)];
      } else if nonAge < |motions| && reason != Age {
        motions := motions[nonAge := motions[nonAge].(reason := reason, granted := granted)];
      } else {
        motions := motions + [m];
      }
      UpdateOnRecord(before, m);
      if OnePerKind(before) {
        UpdateKeeps(before, m);
        forall key: Key {
          UpdateRuling(before, m, key);
        }
      }
    }

    /** `copy_granted_motions_to_appeal`. */
    method CopyGrantedMotionsToAppeal(src: nat, dst: nat, srcPeople: set<nat>, dstPeople: set<nat>)
      modifies this
      ensures motions == old(motions) + Copies(old(motions), src, dst, srcPeople, dstPeople)
    {
      var rows := motions;
      for n := 0 to |rows|
        invariant motions == rows + Copies(rows[..n], src, dst, srcPeople, dstPeople)
      {
        assert rows[..n + 1][..n] == rows[..n];
        if rows[n].person in srcPeople && rows[n].appeal == src && rows[n].granted {
          if rows[n].person in dstPeople {
            motions := motions + [rows[n].(appeal := dst)];
          }
        }
      }
      assert rows[..|rows|] == rows;
    }
  }

  // ---- Updates ---------------------------------------------------------------------------------------

  lemma {:induction false} PlaceHasKey(motions: seq<Motion>, m: Motion)
    ensures Place(motions, m) < |motions| ==> KeyOf(motions[Place(motions, m)]) == KeyOf(m)
    ensures Place(motions, m) == |motions| ==> forall i :: 0 <= i < |motions| ==> KeyOf(motions[i]) != KeyOf(m)
  {
  }

  /** Which row takes the ruling: the last one of the appeal and person with the same reason; without one, and unless
      the reason is age, the last one of theirs with any reason but age; and otherwise a new row. */
  lemma {:induction false} PlaceIs(motions: seq<Motion>, m: Motion, k: nat)
    requires k < |motions| && motions[k].appeal == m.appeal && motions[k].person == m.person
    requires forall i :: k < i < |motions| && motions[i].appeal == m.appeal && motions[i].person == m.person ==>
      motions[i].reason != m.reason
    ensures motions[k].reason == m.reason ==> Updated(motions, m) == motions[k := m]
    ensures m.reason != Age && motions[k].reason != Age
            && (forall i :: 0 <= i < |motions| && motions[i].appeal == m.appeal && motions[i].person == m.person ==>
                  motions[i].reason != m.reason && (i > k ==> motions[i].reason == Age))
      ==> Updated(motions, m) == motions[k := m]
  {
  }

  lemma {:induction false} UpdateOnRecord(motions: seq<Motion>, m: Motion)
    ensures m in Updated(motions, m) && RulingOn(Updated(motions, m), KeyOf(m)).Some?
  {
    PlaceHasKey(motions, m);
    var after, k := Updated(motions, m), Place(motions, m);
    assert after[k] == m;
    assert LastSuch(after, (row: Motion) => KeyOf(row) == KeyOf(m)) < |after|;
  }

  /** An update never adds a second motion of a kind. */
  lemma {:induction false} UpdateKeeps(motions: seq<Motion>, m: Motion)
    requires OnePerKind(motions)
    ensures OnePerKind(Updated(motions, m))
  {
    PlaceHasKey(motions, m);
  }

  /** With one motion of a kind, any row of the kind is the ruling. */
  lemma {:induction false} RulingIsRow(motions: seq<Motion>, key: Key, i: nat)
    requires OnePerKind(motions) && i < |motions| && KeyOf(motions[i]) == key
    ensures RulingOn(motions, key) == Some(Ruling(motions[i].reason, motions[i].granted))
  {
    var k := LastSuch(motions, (m: Motion) => KeyOf(m) == key);
    assert k < |motions| && KeyOf(motions[k]) == key;
  }

  lemma {:induction false} RulingMissing(motions: seq<Motion>, key: Key)
    ensures RulingOn(motions, key).None? <==> forall i :: 0 <= i < |motions| ==> KeyOf(motions[i]) != key
  {
    var k := LastSuch(motions, (m: Motion) => KeyOf(m) == key);
  }

  /** After an update the last reason and ruling are on record, and no other ruling changed. */
  lemma {:induction false} UpdateRuling(motions: seq<Motion>, m: Motion, key: Key)
    requires OnePerKind(motions)
    ensures RulingOn(Updated(motions, m), key) == if key == KeyOf(m) then Some(Ruling(m.reason, m.granted)) else RulingOn(motions, key)
  {
    var after, k := Updated(motions, m), Place(motions, m);
    PlaceHasKey(motions, m);
    UpdateKeeps(motions, m);
    if key == KeyOf(m) {
      RulingIsRow(after, key, k);
    } else {
      RulingMissing(motions, key);
      RulingMissing(after, key);
      if i :| 0 <= i < |motions| && KeyOf(motions[i]) == key {
        assert after[i] == motions[i];
        RulingIsRow(motions, key, i);
        RulingIsRow(after, key, i);
      }
    }
  }

  // ---- Copies ----------------------------------------------------------------------------------------

  /** Each copy comes from a granted motion, and each such motion is copied. */
  lemma {:induction false} CopiesAre(motions: seq<Motion>, src: nat, dst: nat, srcPeople: set<nat>,
                                     dstPeople: set<nat>, copy: Motion)
    ensures copy in Copies(motions, src, dst, srcPeople, dstPeople) <==>
      exists i :: 0 <= i < |motions| && Copied(motions[i], src, srcPeople, dstPeople) && copy == motions[i].(appeal := dst)
  {
    if motions != [] {
      var n := |motions| - 1;
      CopiesAre(motions[..n], src, dst, srcPeople, dstPeople, copy);
      assert (exists i :: 0 <= i < n && Copied(motions[i], src, srcPeople, dstPeople) && copy == motions[i].(appeal := dst))
        <==> exists i :: 0 <= i < n && Copied(motions[..n][i], src, srcPeople, dstPeople) && copy == motions[..n][i].(appeal := dst);
    }
  }

  lemma {:induction false} CopiesDiffer(motions: seq<Motion>, src: nat, dst: nat, srcPeople: set<nat>,
                                        dstPeople: set<nat>)
    requires OnePerKind(motions)
    ensures OnePerKind(Copies(motions, src, dst, srcPeople, dstPeople))
  {
    if motions != [] {
      var n := |motions| - 1;
      var fewer := Copies(motions[..n], src, dst, srcPeople, dstPeople);
      CopiesDiffer(motions[..n], src, dst, srcPeople, dstPeople);
      if Copied(motions[n], src, srcPeople, dstPeople) {
        forall k | 0 <= k < |fewer|
          ensures KeyOf(fewer[k]) != KeyOf(motions[n].(appeal := dst))
        {
          CopiesAre(motions[..n], src, dst, srcPeople, dstPeople, fewer[k]);
        }
      }
    }
  }

  /** A motion to be copied has a counterpart at the other appeal already. */
  predicate Clash(motions: seq<Motion>, src: nat, dst: nat, srcPeople: set<nat>, dstPeople: set<nat>) {
    exists i, j :: 0 <= i < |motions| && 0 <= j < |motions| && Copied(motions[i], src, srcPeople, dstPeople)
      && KeyOf(motions[j]) == KeyOf(motions[i].(appeal := dst))
  }

  /** Copying keeps the registry as it should be exactly when nothing copied is there already. */
  lemma {:induction false} CopyKeepsIff(motions: seq<Motion>, src: nat, dst: nat, srcPeople: set<nat>,
                                        dstPeople: set<nat>)
    requires OnePerKind(motions)
    ensures OnePerKind(motions + Copies(motions, src, dst, srcPeople, dstPeople)) <==> !Clash(motions, src, dst, srcPeople, dstPeople)
  {
    var copies := Copies(motions, src, dst, srcPeople, dstPeople);
    var after := motions + copies;
    if Clash(motions, src, dst, srcPeople, dstPeople) {
      var i, j :| 0 <= i < |motions| && 0 <= j < |motions| && Copied(motions[i], src, srcPeople, dstPeople)
                  && KeyOf(motions[j]) == KeyOf(motions[i].(appeal := dst));
      CopiesAre(motions, src, dst, srcPeople, dstPeople, motions[i].(appeal := dst));
      var k :| 0 <= k < |copies| && copies[k] == motions[i].(appeal := dst);
      assert after[|motions| + k] == copies[k] && after[j] == motions[j];
    } else {
      CopiesDiffer(motions, src, dst, srcPeople, dstPeople);
      forall j, k | 0 <= j < |motions| && 0 <= k < |copies|
        ensures KeyOf(motions[j]) != KeyOf(copies[k])
      {
        CopiesAre(motions, src, dst, srcPeople, dstPeople, copies[k]);
      }
    }
  }

  /** A granted motion copied beside a denied one of its kind makes two. */
  lemma {:induction false} CopyMayClash() returns (motions: seq<Motion>)
    ensures OnePerKind(motions) && !OnePerKind(motions + Copies(motions, 0, 1, {0}, {0}))
  {
    motions := [Motion(0, 0, Age, true), Motion(1, 0, Age, false)];
    assert Copied(motions[0], 0, {0}, {0}) && KeyOf(motions[1]) == KeyOf(motions[0].(appeal := 1));
    CopyKeepsIff(motions, 0, 1, {0}, {0});
  }

  /** An appeal without motions never clashes. */
  lemma {:induction false} NewAppealNeverClashes(motions: seq<Motion>, src: nat, dst: nat, srcPeople: set<nat>,
                                                 dstPeople: set<nat>)
    requires forall i :: 0 <= i < |motions| ==> motions[i].appeal != dst
    ensures !Clash(motions, src, dst, srcPeople, dstPeople)
  {
  }

  /** After a copy the other appeal has the granted rulings of the people it shares, and nothing else changed. */
  lemma {:induction false} CopyRuling(motions: seq<Motion>, src: nat, dst: nat, srcPeople: set<nat>,
                                      dstPeople: set<nat>, key: Key)
    requires OnePerKind(motions) && !Clash(motions, src, dst, srcPeople, dstPeople)
    ensures var there := RulingOn(motions, key.(appeal := src));
            RulingOn(motions + Copies(motions, src, dst, srcPeople, dstPeople), key) ==
              if key.appeal == dst && key.person in srcPeople && key.person in dstPeople && there.Some? && there.value.granted
              then there else RulingOn(motions, key)
  {
    var copies := Copies(motions, src, dst, srcPeople, dstPeople);
    var after, there := motions + copies, RulingOn(motions, key.(appeal := src));
    CopyKeepsIff(motions, src, dst, srcPeople, dstPeople);
    RulingMissing(motions, key.(appeal := src));
    RulingMissing(motions, key);
    RulingMissing(after, key);
    if i :| 0 <= i < |motions| && Copied(motions[i], src, srcPeople, dstPeople) && KeyOf(motions[i].(appeal := dst)) == key {
      RulingIsRow(motions, key.(appeal := src), i);
      CopiesAre(motions, src, dst, srcPeople, dstPeople, motions[i].(appeal := dst));
      var k :| 0 <= k < |copies| && copies[k] == motions[i].(appeal := dst);
      RulingIsRow(after, key, |motions| + k);
    } else {
      NothingCopied(motions, src, dst, srcPeople, dstPeople, key);
      if j :| 0 <= j < |motions| && KeyOf(motions[j]) == key {
        assert after[j] == motions[j];
        RulingIsRow(motions, key, j);
        RulingIsRow(after, key, j);
      }
    }
  }

  lemma {:induction false} NothingCopied(motions: seq<Motion>, src: nat, dst: nat, srcPeople: set<nat>,
                                         dstPeople: set<nat>, key: Key)
    requires OnePerKind(motions)
    requires forall i :: 0 <= i < |motions| && Copied(motions[i], src, srcPeople, dstPeople) ==> KeyOf(motions[i].(appeal := dst)) != key
    ensures forall k :: 0 <= k < |Copies(motions, src, dst, srcPeople, dstPeople)| ==>
      KeyOf(Copies(motions, src, dst, srcPeople, dstPeople)[k]) != key
    ensures var there := RulingOn(motions, key.(appeal := src));
            !(key.appeal == dst && key.person in srcPeople && key.person in dstPeople && there.Some? && there.value.granted)
  {
    var copies := Copies(motions, src, dst, srcPeople, dstPeople);
    forall k | 0 <= k < |copies|
      ensures KeyOf(copies[k]) != key
    {
      CopiesAre(motions, src, dst, srcPeople, dstPeople, copies[k]);
    }
    RulingMissing(motions, key.(appeal := src));
    if i :| 0 <= i < |motions| && KeyOf(motions[i]) == key.(appeal := src) {
      RulingIsRow(motions, key.(appeal := src), i);
    }
  }

  // ---- Runs ------------------------------------------------------------------------------------------

  datatype Event =
    | Update(motion: Motion)
    | Copy(src: nat, dst: nat, srcPeople: set<nat>, dstPeople: set<nat>)

  function Step(motions: seq<Motion>, e: Event): seq<Motion> {
    match e
    case Update(m) => Updated(motions, m)
    case Copy(src, dst, srcPeople, dstPeople) => motions + Copies(motions, src, dst, srcPeople, dstPeople)
  }

  /** No copy of the run clashes. */
  predicate Clean(events: seq<Event>) {
    forall n :: 0 <= n < |events| && events[n].Copy? ==>
      !Clash(After(Step, [], events[..n]), events[n].src, events[n].dst, events[n].srcPeople, events[n].dstPeople)
  }

  lemma {:induction false} StepKeepsIff(motions: seq<Motion>, e: Event)
    requires OnePerKind(motions)
    ensures OnePerKind(Step(motions, e)) <==> (e.Copy? ==> !Clash(motions, e.src, e.dst, e.srcPeople, e.dstPeople))
  {
    match e
    case Update(m) => UpdateKeeps(motions, m);
    case Copy(src, dst, srcPeople, dstPeople) => CopyKeepsIff(motions, src, dst, srcPeople, dstPeople);
  }

  lemma {:induction false} CleanPrefix(events: seq<Event>)
    requires events != []
    ensures var e, before := events[|events| - 1], events[..|events| - 1];
            Clean(events) <==> Clean(before) && (e.Copy? ==> !Clash(After(Step, [], before), e.src, e.dst, e.srcPeople, e.dstPeople))
  {
    var before := events[..|events| - 1];
    assert forall n :: 0 <= n < |before| ==> before[..n] == events[..n];
  }

  /** Over every run from an empty registry the kinds stay apart all along exactly when no copy clashes. */
  lemma {:induction false} OnePerKindAlwaysIff(events: seq<Event>)
    ensures Clean(events) <==> forall n :: 0 <= n <= |events| ==> OnePerKind(After(Step, [], events[..n]))
  {
    if events == [] {
      assert After(Step, [], events[..0]) == [];
    } else {
      var n, e := |events| - 1, events[|events| - 1];
      var before := events[..n];
      OnePerKindAlwaysIff(before);
      CleanPrefix(events);
      assert forall k :: 0 <= k <= n ==> before[..k] == events[..k];
      assert events[..n + 1] == events && After(Step, [], events) == Step(After(Step, [], before), e);
      if OnePerKind(After(Step, [], before)) {
        StepKeepsIff(After(Step, [], before), e);
      }
      assert before[..n] == before;
    }
  }

  /** Copies to appeals that have no motions yet are all clean. */
  lemma {:induction false} CopiesToNewAppealsAreClean(events: seq<Event>)
    requires forall n, i :: 0 <= n < |events| && events[n].Copy? && 0 <= i < |After(Step, [], events[..n])| ==>
      After(Step, [], events[..n])[i].appeal != events[n].dst
    ensures Clean(events) && OnePerKind(After(Step, [], events))
  {
    forall n | 0 <= n < |events| && events[n].Copy?
      ensures !Clash(After(Step, [], events[..n]), events[n].src, events[n].dst, events[n].srcPeople, events[n].dstPeople)
    {
      NewAppealNeverClashes(After(Step, [], events[..n]), events[n].src, events[n].dst, events[n].srcPeople, events[n].dstPeople);
    }
    OnePerKindAlwaysIff(events);
    assert events[..|events|] == events;
  }

  /** A book of rulings by appeal, person and kind: what the registry stands for. */
  type Book = Key -> Option<Ruling>

  function BookStep(book: Book, e: Event): Book {
    match e
    case Update(m) => (key: Key) => if key == KeyOf(m) then Some(Ruling(m.reason, m.granted)) else book(key)
    case Copy(src, dst, srcPeople, dstPeople) =>
      (key: Key) =>
        var there := book(key.(appeal := src));
        if key.appeal == dst && key.person in srcPeople && key.person in dstPeople && there.Some? && there.value.granted
        then there else book(key)
  }

  function EmptyBook(): Book {
    (key: Key) => None
  }

  /** A clean run leaves in the registry, for every appeal, person and kind, the ruling the book has. */
  lemma {:induction false} RegistryIsBook(events: seq<Event>, key: Key)
    requires Clean(events)
    ensures RulingOn(After(Step, [], events), key) == After(BookStep, EmptyBook(), events)(key)
  {
    if events == [] {
      RulingMissing([], key);
    } else {
      var e, before := events[|events| - 1], events[..|events| - 1];
      var motions := After(Step, [], before);
      CleanPrefix(events);
      OnePerKindAlwaysIff(before);
      assert before[..|before|] == before;
      RegistryIsBook(before, key);
      match e
      case Update(m) => UpdateRuling(motions, m, key);
      case Copy(src, dst, srcPeople, dstPeople) =>
        RegistryIsBook(before, key.(appeal := src));
        CopyRuling(motions, src, dst, srcPeople, dstPeople, key);
    }
  }

  ghost predicate Granted(book: Book, key: Key) {
    book(key).Some? && book(key).value.granted
  }

  predicate HasGranted(motions: seq<Motion>, key: Key) {
    exists i :: 0 <= i < |motions| && KeyOf(motions[i]) == key && motions[i].granted
  }

  lemma {:induction false} GrantedInBook(events: seq<Event>, key: Key)
    requires Clean(events)
    ensures Granted(After(BookStep, EmptyBook(), events), key) <==> HasGranted(After(Step, [], events), key)
  {
    var motions := After(Step, [], events);
    OnePerKindAlwaysIff(events);
    assert events[..|events|] == events;
    RegistryIsBook(events, key);
    RulingMissing(motions, key);
    if i :| 0 <= i < |motions| && KeyOf(motions[i]) == key {
      RulingIsRow(motions, key, i);
    }
  }

  /** A person advances an appeal exactly when the book has a granted ruling for that appeal or one due to age. */
  lemma {:induction false} GrantedForPersonIff(events: seq<Event>, person: nat, appeal: nat)
    requires Clean(events)
    ensures var book := After(BookStep, EmptyBook(), events);
            GrantedForPerson(After(Step, [], events), person, appeal) <==>
              Granted(book, Key(appeal, person, false)) || exists a :: Granted(book, Key(a, person, true))
  {
    var motions, book := After(Step, [], events), After(BookStep, EmptyBook(), events);
    forall key: Key
      ensures Granted(book, key) <==> HasGranted(motions, key)
    {
      GrantedInBook(events, key);
    }
    if GrantedForPerson(motions, person, appeal) {
      var i :| 0 <= i < |motions| && motions[i].person == person && motions[i].granted
               && ((motions[i].appeal == appeal && motions[i].reason != Age) || motions[i].reason == Age);
      assert HasGranted(motions, KeyOf(motions[i]));
    }
  }
}
