/** internal/cron/gcp.go, first phase of `execGCPEvent`: the live HPAs of the
    cluster are split into those an event's targets name (selected, each
    paired with its target) and the rest (unselected); targets that name no
    live HPA are marked failed. */
module HpaPartition {
  import opened Common
  import opened HpaApi
  import opened Targets

  function HpaKey(h: Hpa): NameNs { NameNs(h.name, h.namespace) }

  /** `modifiedHPAMap`: the targets by name and namespace, a later target
      with the same key replacing an earlier one. */
  function TargetMap(ts: seq<TargetData>): (m: map<NameNs, TargetData>)
    ensures forall k :: k in m <==> exists i :: 0 <= i < |ts| && TargetKey(ts[i]) == k
    ensures forall k :: k in m ==> TargetKey(m[k]) == k && m[k] in ts
    decreases |ts|
  {
    if |ts| == 0 then map[]
    else
      var front := ts[..|ts| - 1];
      assert forall i :: 0 <= i < |front| ==> front[i] == ts[i];
      TargetMap(front)[TargetKey(ts[|ts| - 1]) := ts[|ts| - 1]]
  }

  /** The target kept for a key is the last one with that key. */
  lemma {:induction false} TargetMapKeepsLast(ts: seq<TargetData>, i: nat)
    requires i < |ts|
    requires forall j :: i < j < |ts| ==> TargetKey(ts[j]) != TargetKey(ts[i])
    ensures TargetMap(ts)[TargetKey(ts[i])] == ts[i]
    decreases |ts|
  {
    if i < |ts| - 1 {
      var front := ts[..|ts| - 1];
      assert front[i] == ts[i];
      TargetMapKeepsLast(front, i);
    }
  }

  /** The outcome of the partition loop: the selected HPAs and, index by
      index, the targets they matched (`existingModifiedHPAs`), the
      unselected HPAs, and the targets left in the map. */
  datatype Split = Split(selected: seq<Hpa>, matched: seq<TargetData>, unselected: seq<Hpa>, missing: map<NameNs, TargetData>)

  /** The partition of the first objects; objects that are not HPAs are skipped. */
  function PartitionOf(m: map<NameNs, TargetData>, objects: seq<HpaObjectData>): (s: Split)
    ensures |s.selected| == |s.matched|
    ensures forall k :: k in s.missing ==> k in m && s.missing[k] == m[k]
    decreases |objects|
  {
    if |objects| == 0 then Split([], [], [], m)
    else
      var s := PartitionOf(m, objects[..|objects| - 1]);
      var o := objects[|objects| - 1].obj;
      if o.OtherObject? then s
      else if HpaKey(o.hpa) in s.missing then
        Split(s.selected + [o.hpa], s.matched + [s.missing[HpaKey(o.hpa)]], s.unselected, s.missing - {HpaKey(o.hpa)})
      else Split(s.selected, s.matched, s.unselected + [o.hpa], s.missing)
  }

  /** Some listed object is an HPA with this key. */
  predicate Listed(objects: seq<HpaObjectData>, k: NameNs)
  {
    exists i :: 0 <= i < |objects| && objects[i].obj.HpaObject? && HpaKey(objects[i].obj.hpa) == k
  }

  predicate SelectedKey(s: Split, k: NameNs)
  {
    exists i :: 0 <= i < |s.selected| && HpaKey(s.selected[i]) == k
  }

  function HpaCount(objects: seq<HpaObjectData>): nat
    decreases |objects|
  {
    if |objects| == 0 then 0
    else HpaCount(objects[..|objects| - 1]) + (if objects[|objects| - 1].obj.HpaObject? then 1 else 0)
  }

  /** What the partition promises:
      - each selected HPA is paired with the target of its key;
      - a key is selected iff it is a target key and some live HPA has it;
      - the targets left over are exactly those no live HPA has;
      - an unselected HPA is one no target names (or a second HPA under a
        key already selected);
      - every HPA lands in exactly one of the two lists. */
  lemma PartitionSound(m: map<NameNs, TargetData>, objects: seq<HpaObjectData>)
    requires forall k :: k in m ==> TargetKey(m[k]) == k
    ensures var s := PartitionOf(m, objects);
            && (forall i :: 0 <= i < |s.selected| ==>
                  HpaKey(s.selected[i]) in m && s.matched[i] == m[HpaKey(s.selected[i])]
                  && TargetKey(s.matched[i]) == HpaKey(s.selected[i]))
            && (forall k :: SelectedKey(s, k) <==> k in m && Listed(objects, k))
            && (forall k :: k in s.missing <==> k in m && !Listed(objects, k))
            && (forall h :: h in s.unselected ==> HpaKey(h) !in m || SelectedKey(s, HpaKey(h)))
            && |s.selected| + |s.unselected| == HpaCount(objects)
  {
    PartitionPairs(m, objects);
    PartitionKeys(m, objects);
    PartitionUnselected(m, objects);
    PartitionCount(m, objects);
  }

  /** A longer listing lists the keys of the shorter one and of its last HPA. */
  lemma ListedSnoc(objects: seq<HpaObjectData>)
    requires |objects| > 0
    ensures var o := objects[|objects| - 1].obj;
            forall k :: Listed(objects, k) <==> Listed(objects[..|objects| - 1], k) || (o.HpaObject? && HpaKey(o.hpa) == k)
  {
    var front := objects[..|objects| - 1];
    var o := objects[|objects| - 1].obj;
    forall k
      ensures Listed(objects, k) <==> Listed(front, k) || (o.HpaObject? && HpaKey(o.hpa) == k)
    {
      if Listed(front, k) {
        var i :| 0 <= i < |front| && front[i].obj.HpaObject? && HpaKey(front[i].obj.hpa) == k;
        assert objects[i] == front[i];
      }
      if Listed(objects, k) {
        var i :| 0 <= i < |objects| && objects[i].obj.HpaObject? && HpaKey(objects[i].obj.hpa) == k;
        if i < |front| {
          assert front[i] == objects[i];
        }
      }
    }
  }

  /** Selecting one more HPA adds exactly its key to the selected keys. */
  lemma SelectedKeySnoc(s0: Split, s: Split, h: Hpa)
    requires s.selected == s0.selected + [h]
    ensures forall k :: SelectedKey(s, k) <==> SelectedKey(s0, k) || k == HpaKey(h)
  {
    forall k
      ensures SelectedKey(s, k) <==> SelectedKey(s0, k) || k == HpaKey(h)
    {
      if SelectedKey(s0, k) {
        var i :| 0 <= i < |s0.selected| && HpaKey(s0.selected[i]) == k;
        assert s.selected[i] == s0.selected[i];
      }
      if k == HpaKey(h) {
        assert s.selected[|s0.selected|] == h;
      }
      if SelectedKey(s, k) && k != HpaKey(h) {
        var i :| 0 <= i < |s.selected| && HpaKey(s.selected[i]) == k;
        assert i < |s0.selected| && s.selected[i] == s0.selected[i];
      }
    }
  }

  /** Each selected HPA is paired, index by index, with the target of its own key. */
  predicate Paired(m: map<NameNs, TargetData>, s: Split)
  {
    |s.selected| == |s.matched|
    && forall i :: 0 <= i < |s.selected| ==>
         HpaKey(s.selected[i]) in m && s.matched[i] == m[HpaKey(s.selected[i])]
  }

  lemma {:induction false} PartitionPairs(m: map<NameNs, TargetData>, objects: seq<HpaObjectData>)
    ensures Paired(m, PartitionOf(m, objects))
    decreases |objects|
  {
    if |objects| > 0 {
      var front := objects[..|objects| - 1];
      PartitionPairs(m, front);
      var s0 := PartitionOf(m, front);
      var s := PartitionOf(m, objects);
      var o := objects[|objects| - 1].obj;
      if o.HpaObject? && HpaKey(o.hpa) in s0.missing {
        var key := HpaKey(o.hpa);
        assert key in m && s0.missing[key] == m[key];
        assert s.selected == s0.selected + [o.hpa] && s.matched == s0.matched + [m[key]];
        forall i | 0 <= i < |s.selected|
          ensures HpaKey(s.selected[i]) in m && s.matched[i] == m[HpaKey(s.selected[i])]
        {
          if i < |s0.selected| {
            assert s.selected[i] == s0.selected[i] && s.matched[i] == s0.matched[i];
          }
        }
      } else {
        assert s.selected == s0.selected && s.matched == s0.matched;
      }
    }
  }

  /** A key is selected iff a target and a live HPA have it; the targets left
      over are those no live HPA has. */
  lemma {:induction false} PartitionKeys(m: map<NameNs, TargetData>, objects: seq<HpaObjectData>)
    ensures var s := PartitionOf(m, objects);
            && (forall k :: SelectedKey(s, k) <==> k in m && Listed(objects, k))
            && (forall k :: k in s.missing <==> k in m && !Listed(objects, k))
    decreases |objects|
  {
    if |objects| > 0 {
      var front := objects[..|objects| - 1];
      PartitionKeys(m, front);
      ListedSnoc(objects);
      var s0 := PartitionOf(m, front);
      var s := PartitionOf(m, objects);
      var o := objects[|objects| - 1].obj;
      if o.HpaObject? && HpaKey(o.hpa) in s0.missing {
        SelectedKeySnoc(s0, s, o.hpa);
      } else {
        assert s.selected == s0.selected;
      }
    }
  }

  /** An unselected HPA has no target, or shares its key with a selected one. */
  lemma {:induction false} PartitionUnselected(m: map<NameNs, TargetData>, objects: seq<HpaObjectData>)
    ensures var s := PartitionOf(m, objects);
            forall h :: h in s.unselected ==> HpaKey(h) !in m || SelectedKey(s, HpaKey(h))
    decreases |objects|
  {
    if |objects| > 0 {
      var front := objects[..|objects| - 1];
      PartitionUnselected(m, front);
      PartitionKeys(m, front);
      var s0 := PartitionOf(m, front);
      var s := PartitionOf(m, objects);
      var o := objects[|objects| - 1].obj;
      if o.HpaObject? && HpaKey(o.hpa) in s0.missing {
        SelectedKeySnoc(s0, s, o.hpa);
      } else {
        assert s.selected == s0.selected;
      }
    }
  }

  /** Every HPA lands in exactly one of the two lists. */
  lemma {:induction false} PartitionCount(m: map<NameNs, TargetData>, objects: seq<HpaObjectData>)
    ensures var s := PartitionOf(m, objects);
            |s.selected| + |s.unselected| == HpaCount(objects)
    decreases |objects|
  {
    if |objects| > 0 {
      PartitionCount(m, objects[..|objects| - 1]);
    }
  }

  /** The partition loop: the map of targets is built, then every object is
      looked up; a hit is selected, paired with its target and deleted from
      the map, a miss is unselected. */
  method PartitionHpas(targets: seq<TargetData>, objects: seq<HpaObjectData>) returns (s: Split)
    ensures s == PartitionOf(TargetMap(targets), objects)
  {
    var m := BuildTargetMap(targets);
    s := SplitObjects(m, objects);
  }

  /** The loop building `modifiedHPAMap`. */
  method BuildTargetMap(targets: seq<TargetData>) returns (m: map<NameNs, TargetData>)
    ensures m == TargetMap(targets)
  {
    m := map[];
    var i := 0;
    while i < |targets|
      invariant 0 <= i <= |targets|
      invariant m == TargetMap(targets[..i])
    {
      assert targets[..i + 1][..i] == targets[..i];
      m := m[TargetKey(targets[i]) := targets[i]];
      i := i + 1;
    }
    assert targets[..|targets|] == targets;
  }

  /** The loop over the listed objects, deleting each hit from the map. */
  method SplitObjects(all: map<NameNs, TargetData>, objects: seq<HpaObjectData>) returns (s: Split)
    ensures s == PartitionOf(all, objects)
  {
    var m := all;
    var selected, matched, unselected := [], [], [];
    var j := 0;
    while j < |objects|
      invariant 0 <= j <= |objects|
      invariant Split(selected, matched, unselected, m) == PartitionOf(all, objects[..j])
    {
      assert objects[..j + 1][..j] == objects[..j];
      var o := objects[j].obj;
      if o.OtherObject? {
        j := j + 1;
        continue;
      }
      var key := HpaKey(o.hpa);
      if key in m {
        selected := selected + [o.hpa];
        matched := matched + [m[key]];
        m := m - {key};
      } else {
        unselected := unselected + [o.hpa];
      }
      j := j + 1;
    }
    assert objects[..|objects|] == objects;
    s := Split(selected, matched, unselected, m);
  }

  /** The selected HPA as it is written back: the target's minimum and
      maximum replace the HPA's, and every other field is kept. */
  function Retarget(h: Hpa, t: TargetData): (r: Hpa)
    ensures r.minReplicas == t.minReplicas && r.maxReplicas == t.maxReplicas
    ensures r.(minReplicas := h.minReplicas, maxReplicas := h.maxReplicas) == h
  {
    h.(minReplicas := t.minReplicas, maxReplicas := t.maxReplicas)
  }

  function RetargetAll(hs: seq<Hpa>, ts: seq<TargetData>): (r: seq<Hpa>)
    requires |hs| == |ts|
    ensures |r| == |hs|
    ensures forall i :: 0 <= i < |hs| ==> r[i] == Retarget(hs[i], ts[i])
  {
    seq(|hs|, i requires 0 <= i < |hs| => Retarget(hs[i], ts[i]))
  }

  /** The message a target with no live HPA is given. */
  const HpaNotFound: string := "hpa not found"

  /** The ids of the targets left in the map under the given keys. */
  function IdsOf(missing: map<NameNs, TargetData>, keys: set<NameNs>): set<Id>
  {
    set k | k in keys && k in missing :: missing[k].id
  }

  /** A row after the failure marking: a live row of a left-over target whose
      save succeeds is FAILED with "hpa not found". */
  function Marked(row: ConfigRow, ids: set<Id>, saveErr: Id -> Option<string>): ConfigRow
  {
    if row.id in ids && !row.deleted && saveErr(row.id).None? then row.(status := UpdateFailed, message := HpaNotFound)
    else row
  }

  /** The loop over the left-over targets (in the map's order, which Go does
      not fix): each is set to FAILED with "hpa not found"; a failed save is
      only logged, and no other row or field changes. */
  method MarkMissingTargets(configs: ConfigTable, missing: map<NameNs, TargetData>, saveErr: Id -> Option<string>)
    requires configs.Valid()
    modifies configs
    ensures configs.Valid() && |configs.rows| == |old(configs.rows)|
    ensures forall j :: 0 <= j < |configs.rows| ==>
              configs.rows[j] == Marked(old(configs.rows)[j], IdsOf(missing, missing.Keys), saveErr)
  {
    var todo := missing.Keys;
    ghost var done: set<NameNs> := {};
    while todo != {}
      invariant configs.Valid() && |configs.rows| == |old(configs.rows)|
      invariant todo + done == missing.Keys && todo !! done
      invariant forall j :: 0 <= j < |configs.rows| ==>
                  configs.rows[j] == Marked(old(configs.rows)[j], IdsOf(missing, done), saveErr)
      decreases |todo|
    {
      var k :| k in todo;
      MarkOne(configs, old(configs.rows), missing, done, k, saveErr);
      todo := todo - {k};
      done := done + {k};
    }
  }

  /** One left-over target is saved FAILED; the rows are then marked for one
      more key. */
  method MarkOne(configs: ConfigTable, ghost original: seq<ConfigRow>, missing: map<NameNs, TargetData>,
                 ghost done: set<NameNs>, k: NameNs, saveErr: Id -> Option<string>)
    requires configs.Valid() && k in missing && |configs.rows| == |original|
    requires forall j :: 0 <= j < |configs.rows| ==>
               configs.rows[j] == Marked(original[j], IdsOf(missing, done), saveErr)
    modifies configs
    ensures configs.Valid() && |configs.rows| == |original|
    ensures forall j :: 0 <= j < |configs.rows| ==>
              configs.rows[j] == Marked(original[j], IdsOf(missing, done + {k}), saveErr)
  {
    var t := missing[k];
    ghost var before := configs.rows;
    var err := configs.UpdateStatusMessage(t.id, UpdateFailed, HpaNotFound, saveErr(t.id));
    IdsOfAdd(missing, done, k);
    forall j | 0 <= j < |configs.rows|
      ensures configs.rows[j] == Marked(original[j], IdsOf(missing, done + {k}), saveErr)
    {
      MarkStep(original[j], before[j], IdsOf(missing, done), t.id, saveErr);
    }
  }

  lemma IdsOfAdd(missing: map<NameNs, TargetData>, keys: set<NameNs>, k: NameNs)
    requires k in missing
    ensures IdsOf(missing, keys + {k}) == IdsOf(missing, keys) + {missing[k].id}
  {
  }

  /** Marking one more id on a row already marked for `ids` is the marking
      for `ids` and that id. */
  lemma MarkStep(row0: ConfigRow, row: ConfigRow, ids: set<Id>, id: Id, saveErr: Id -> Option<string>)
    requires row == Marked(row0, ids, saveErr)
    ensures (if row.id == id && !row.deleted && saveErr(id).None?
             then row.(status := UpdateFailed, message := HpaNotFound) else row)
            == Marked(row0, ids + {id}, saveErr)
  {
  }
}
