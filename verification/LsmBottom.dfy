/** The bottom level is level 6 whatever the number of levels: exactly when a compaction, and a cascade of
    them, shows a reader another value. */
module LsmBottom {
  import opened Bytes
  import opened Entries
  import opened Versions
  import opened Compaction
  import opened LsmModel
  import opened LsmVersions

  lemma InputsInVersions(s: Store, p: Plan)
    requires Parted(s.levels, p) && NoTies(AllVersions(s))
    ensures NoTies(Held(p.take + p.takeNext)) && Held(p.take + p.takeNext) == Taken(p)
  {
    hide Parted, Held, Outside;
    VersionsSplit(s.mem, s.levels, p, []);
    HeldAppend(p.take, p.takeNext);
    assert Taken(p) <= AllVersions(s);
  }

  /** The versions after a compaction, for any number of levels. */
  lemma CompactVersions(s: Store, p: Plan)
    requires Parted(s.levels, p) && |s.sizes| == |s.levels| && NoTies(AllVersions(s))
    ensures AllVersions(s) == Kept(s.mem, s.levels, p) + Taken(p)
    ensures AllVersions(Compact(s, p))
         == Kept(s.mem, s.levels, p) + Survivors(Taken(p), p.from + 1 >= BOTTOM_LEVEL)
    ensures NoTies(AllVersions(Compact(s, p)))
  {
    hide Held, Outputs, Survivors, Kept, Taken, Names, FilesWith, InputNames, TotalSize;
    InputsInVersions(s, p);
    OutputsHold(p.take + p.takeNext, p.from + 1, s.nextID);
    VersionsSplit(s.mem, s.levels, p, PlanOutputs(s, p));
  }

  /** A compaction shows a reader the same value of a non-empty key exactly when it exposes no older
      one, whatever the number of levels. */
  lemma CompactView(s: Store, p: Plan, k: Str)
    requires Parted(s.levels, p) && |s.sizes| == |s.levels| && NoTies(AllVersions(s)) && k != []
    ensures View(Compact(s, p), k) == View(s, k)
       <==> !Exposes(Kept(s.mem, s.levels, p), Taken(p), p.from + 1 >= BOTTOM_LEVEL, k)
    ensures View(s, k).Some? ==> View(Compact(s, p), k) == View(s, k)
  {
    hide Parted, Survivors, Kept, Taken, Visible, Exposes, Compact, AllVersions;
    CompactVersions(s, p);
    MergeKeepsVisible(Kept(s.mem, s.levels, p), Taken(p), p.from + 1 >= BOTTOM_LEVEL, k);
    ShownIsNotExposed(Kept(s.mem, s.levels, p), Taken(p), p.from + 1 >= BOTTOM_LEVEL, k);
  }

  lemma ShownIsNotExposed(rest: set<Entry>, inputs: set<Entry>, bottom: bool, k: Str)
    ensures Visible(rest + inputs, k).Some? ==> !Exposes(rest, inputs, bottom, k)
  {
    hide Newest;
  }

  /** A compaction keeps the value of the empty key exactly when what is not merged shows it already. */
  lemma CompactEmptyKey(s: Store, p: Plan)
    requires Parted(s.levels, p) && |s.sizes| == |s.levels| && NoTies(AllVersions(s))
    ensures View(Compact(s, p), []) == View(s, []) <==> Visible(Kept(s.mem, s.levels, p), []) == View(s, [])
  {
    hide Parted, Survivors, Kept, Taken, Visible, Compact, AllVersions;
    CompactVersions(s, p);
    MergeDropsEmptyKey(Kept(s.mem, s.levels, p), Taken(p), p.from + 1 >= BOTTOM_LEVEL);
  }

  lemma WholeLevels(s: Store, level: nat)
    requires level + 1 < |s.levels|
    ensures Parted(s.levels, PlanLevel(s, level))
  {
    hide Held;
    HeldNone();
  }

  /** Whether compactLevel runs, and whether it goes on to the next level. */
  predicate Applies(s: Store, level: nat) {
    1 <= level && level + 1 < |s.levels| && |s.sizes| == |s.levels| && s.levels[level] != []
  }

  ghost predicate GoesOn(s: Store, level: nat)
    requires Applies(s, level)
  {
    var s1 := Compact(s, PlanLevel(s, level));
    CompactShape(s, level);
    level + 2 < |s.levels| && s1.sizes[level + 1] > LevelSize(BASE_LEVEL_SIZE, level + 1)
  }

  lemma CompactShape(s: Store, level: nat)
    requires Applies(s, level)
    ensures |Compact(s, PlanLevel(s, level)).sizes| == |Compact(s, PlanLevel(s, level)).levels| == |s.levels|
  {
    hide PlanOutputs;
  }

  /** Some step of the cascade exposes an older value of the key. */
  ghost predicate Resurrects(s: Store, level: nat, k: Str)
    decreases |s.levels| - level
  {
    Applies(s, level) &&
    var p := PlanLevel(s, level);
    CompactShape(s, level);
    (Exposes(Kept(s.mem, s.levels, p), Taken(p), level + 1 >= BOTTOM_LEVEL, k)
     || (GoesOn(s, level) && Resurrects(Compact(s, p), level + 1, k)))
  }

  /** compactLevel with its cascade shows a reader the same value exactly when no step of it exposes an
      older one. */
  lemma {:induction false} CompactLevelView(s: Store, level: nat, k: Str)
    requires NoTies(AllVersions(s)) && k != []
    ensures View(CompactLevel(s, level), k) == View(s, k) <==> !Resurrects(s, level, k)
    ensures View(s, k).Some? ==> View(CompactLevel(s, level), k) == View(s, k)
    decreases |s.levels| - level
  {
    hide Compact, Exposes, Kept, Taken, Visible, AllVersions, LevelSize, Parted, NoTies;
    if Applies(s, level) {
      var p := PlanLevel(s, level);
      WholeLevels(s, level);
      CompactView(s, p, k);
      CompactVersions(s, p);
      CompactShape(s, level);
      var s1 := Compact(s, p);
      ExposedWasHidden(s, p, k);
      if GoesOn(s, level) {
        CompactLevelView(s1, level + 1, k);
      }
    }
  }

  lemma ExposedWasHidden(s: Store, p: Plan, k: Str)
    requires Parted(s.levels, p) && |s.sizes| == |s.levels| && NoTies(AllVersions(s)) && k != []
    ensures Exposes(Kept(s.mem, s.levels, p), Taken(p), p.from + 1 >= BOTTOM_LEVEL, k) ==>
              View(s, k) == None && View(Compact(s, p), k).Some?
  {
    hide Parted, Survivors, Kept, Taken, Compact, AllVersions, Newest;
    CompactVersions(s, p);
    MergeKeepsVisible(Kept(s.mem, s.levels, p), Taken(p), p.from + 1 >= BOTTOM_LEVEL, k);
  }
}
