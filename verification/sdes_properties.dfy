/** Properties of the SDES merge: exactness of its change flag, re-application, and the TOOL/NOTE defect. */
module SdesProperties {
  import opened Wrappers
  import opened SdesMerge

  /**
   * The change flag of the item loop is exact: it is set iff some item,
   * applied to the description left by the items before it, wrote.
   */
  lemma {:induction false} WroteIffSomeItemWrote(d: Description, items: seq<SdesItem>)
    ensures MergeItems(d, items).wrote <==>
      exists i :: 0 <= i < |items| && MergeItem(MergeItems(d, items[..i]).desc, items[i]).wrote
  {
    if items != [] {
      var n := |items|;
      var p := items[..n - 1];
      WroteIffSomeItemWrote(d, p);
      var before := MergeItems(d, p);
      var last := MergeItem(before.desc, items[n - 1]);
      assert MergeItems(d, items).wrote == (before.wrote || last.wrote);
      if before.wrote {
        var i :| 0 <= i < |p| && MergeItem(MergeItems(d, p[..i]).desc, p[i]).wrote;
        assert items[..i] == p[..i];
        assert MergeItem(MergeItems(d, items[..i]).desc, items[i]).wrote;
      } else if last.wrote {
        assert MergeItem(MergeItems(d, items[..n - 1]).desc, items[n - 1]).wrote;
      } else {
        forall i | 0 <= i < n
          ensures !MergeItem(MergeItems(d, items[..i]).desc, items[i]).wrote
        {
          if i < n - 1 {
            assert items[..i] == p[..i];
          }
        }
      }
    }
  }

  /** Items of a chunk whose target fields are pairwise disjoint (each kind at most once). */
  predicate DistinctTargets(items: seq<SdesItem>)
  {
    forall i, j :: 0 <= i < j < |items| ==> Targets(items[i]) !! Targets(items[j])
  }

  /**
   * Re-applying an item right after itself writes again exactly when it is a
   * TOOL or NOTE item whose value is present and differs from `location`.
   */
  lemma ReapplyItem(d: Description, it: SdesItem)
    ensures var once := MergeItem(d, it).desc;
      MergeItem(once, it).wrote <==> (it.Tool? || it.Note?) && it.value.Some? && it.value != d.location
  {
  }

  /** A settled item (one that would not write) stays settled when an item with other targets is applied. */
  lemma SettledKept(d: Description, a: SdesItem, b: SdesItem)
    requires !MergeItem(d, a).wrote
    requires Targets(a) !! Targets(b)
    requires !a.Tool? && !a.Note?
    ensures !MergeItem(MergeItem(d, b).desc, a).wrote
  {
  }

  /**
   * After a merge of items with distinct targets, every item that is not
   * TOOL or NOTE is settled on the resulting description.
   */
  lemma {:induction false} SettledAfterMerge(d: Description, items: seq<SdesItem>)
    requires DistinctTargets(items)
    ensures forall i :: 0 <= i < |items| && !items[i].Tool? && !items[i].Note? ==>
      !MergeItem(MergeItems(d, items).desc, items[i]).wrote
  {
    if items != [] {
      var n := |items|;
      var p := items[..n - 1];
      var x := items[n - 1];
      assert DistinctTargets(p) by {
        forall i, j | 0 <= i < j < |p| ensures Targets(p[i]) !! Targets(p[j]) {
          assert p[i] == items[i] && p[j] == items[j];
        }
      }
      SettledAfterMerge(d, p);
      var before := MergeItems(d, p).desc;
      forall i | 0 <= i < n && !items[i].Tool? && !items[i].Note?
        ensures !MergeItem(MergeItems(d, items).desc, items[i]).wrote
      {
        if i == n - 1 {
          ReapplyItem(before, x);
        } else {
          assert items[i] == p[i];
          SettledKept(before, items[i], x);
        }
      }
    }
  }

  /** A description on which every item is settled is left alone by the whole item loop. */
  lemma {:induction false} SettledItemsUnmodified(e: Description, items: seq<SdesItem>)
    requires forall i :: 0 <= i < |items| ==> !MergeItem(e, items[i]).wrote
    ensures MergeItems(e, items) == Step(e, false)
  {
    if items != [] {
      var p := items[..|items| - 1];
      forall i | 0 <= i < |p| ensures !MergeItem(e, p[i]).wrote {
        assert p[i] == items[i];
      }
      SettledItemsUnmodified(e, p);
    }
  }

  /**
   * Merging the same items a second time writes nothing, provided each kind
   * occurs at most once and every TOOL or NOTE value is absent or equal to the
   * `location` the first merge leaves (the TOOL/NOTE comparison with `location`
   * makes the condition necessary: see ToolUpdateNotIdempotent).
   */
  lemma MergeTwiceUnmodified(d: Description, items: seq<SdesItem>)
    requires DistinctTargets(items)
    requires forall i :: 0 <= i < |items| && (items[i].Tool? || items[i].Note?) ==>
      items[i].value.None? || items[i].value == MergeItems(d, items).desc.location
    ensures var e := MergeItems(d, items).desc; MergeItems(e, items) == Step(e, false)
  {
    var e := MergeItems(d, items).desc;
    SettledAfterMerge(d, items);
    SettledItemsUnmodified(e, items);
  }

  /** The merge of a TOOL item is not idempotent: re-merging the same chunk writes `tool` again. */
  lemma ToolUpdateNotIdempotent()
    ensures var items := [Tool(Some("rtp-tool"))];
      var once := MergeItems(NoDescription, items);
      once.wrote && once.desc.tool == Some("rtp-tool") && MergeItems(once.desc, items).wrote
  {
  }

  /** A TOOL value equal to `location` is dropped although `tool` does not hold it. */
  lemma ToolSuppressedByLocation()
    ensures var items := [Location(Some("lab")), Tool(Some("lab"))];
      MergeItems(NoDescription, items).desc.tool == None
  {
  }

  /** The paired PRIV write can turn the PRIV value from present to absent. */
  lemma PrivPairCanErase()
    ensures var d := NoDescription.(privPrefix := Some("x-foo"), priv := Some("bar"));
      var r := MergeItems(d, [Priv(Some("x-bar"), None)]);
      r.wrote && r.desc.privPrefix == Some("x-bar") && r.desc.priv == None
  {
  }

  /** A PRIV item on a record without PRIV data sets both halves; re-applying it changes nothing. */
  lemma PrivSetThenSettled()
    ensures var once := MergeItem(NoDescription, Priv(Some("x-foo"), Some("bar")));
      once.wrote && once.desc.privPrefix == Some("x-foo") && once.desc.priv == Some("bar") &&
      MergeItem(once.desc, Priv(Some("x-foo"), Some("bar"))) == Step(once.desc, false)
  {
  }

  /**
   * The flag records writes, not net change: a chunk that overwrites `cname`
   * and then restores it reports a modification of an unchanged description.
   */
  lemma WriteWithoutNetChange()
    ensures var d := NoDescription.(cname := Some("alice"));
      var r := MergeItems(d, [Cname(Some("bob")), Cname(Some("alice"))]);
      r.wrote && r.desc == d
  {
  }

  /** With the intended comparison, no item writes twice in a row. */
  lemma ReapplyItemIntended(d: Description, it: SdesItem)
    ensures !MergeItemIntended(MergeItemIntended(d, it).desc, it).wrote
  {
  }

  /** With the intended comparison, a settled item stays settled under an item with other targets. */
  lemma SettledKeptIntended(d: Description, a: SdesItem, b: SdesItem)
    requires !MergeItemIntended(d, a).wrote
    requires Targets(a) !! Targets(b)
    ensures !MergeItemIntended(MergeItemIntended(d, b).desc, a).wrote
  {
  }

  /** With the intended comparison, every item of a distinct-target merge is settled on its result. */
  lemma {:induction false} SettledAfterMergeIntended(d: Description, items: seq<SdesItem>)
    requires DistinctTargets(items)
    ensures forall i :: 0 <= i < |items| ==>
      !MergeItemIntended(MergeItemsIntended(d, items).desc, items[i]).wrote
  {
    if items != [] {
      var n := |items|;
      var p := items[..n - 1];
      var x := items[n - 1];
      assert DistinctTargets(p) by {
        forall i, j | 0 <= i < j < |p| ensures Targets(p[i]) !! Targets(p[j]) {
          assert p[i] == items[i] && p[j] == items[j];
        }
      }
      SettledAfterMergeIntended(d, p);
      var before := MergeItemsIntended(d, p).desc;
      forall i | 0 <= i < n
        ensures !MergeItemIntended(MergeItemsIntended(d, items).desc, items[i]).wrote
      {
        if i == n - 1 {
          ReapplyItemIntended(before, x);
        } else {
          assert items[i] == p[i];
          SettledKeptIntended(before, items[i], x);
        }
      }
    }
  }

  /** A description on which every item is settled is left alone by the intended item loop. */
  lemma {:induction false} SettledItemsUnmodifiedIntended(e: Description, items: seq<SdesItem>)
    requires forall i :: 0 <= i < |items| ==> !MergeItemIntended(e, items[i]).wrote
    ensures MergeItemsIntended(e, items) == Step(e, false)
  {
    if items != [] {
      var p := items[..|items| - 1];
      forall i | 0 <= i < |p| ensures !MergeItemIntended(e, p[i]).wrote {
        assert p[i] == items[i];
      }
      SettledItemsUnmodifiedIntended(e, p);
    }
  }

  /**
   * With TOOL and NOTE compared with their own fields, re-merging items of
   * distinct kinds writes nothing, whatever the values and `location`.
   */
  lemma MergeTwiceUnmodifiedIntended(d: Description, items: seq<SdesItem>)
    requires DistinctTargets(items)
    ensures var e := MergeItemsIntended(d, items).desc; MergeItemsIntended(e, items) == Step(e, false)
  {
    var e := MergeItemsIntended(d, items).desc;
    SettledAfterMergeIntended(d, items);
    SettledItemsUnmodifiedIntended(e, items);
  }

  /** With the intended comparison, the chunk of ToolUpdateNotIdempotent is written once only. */
  lemma ToolUpdateIdempotentIntended()
    ensures var items := [Tool(Some("rtp-tool"))];
      var once := MergeItemsIntended(NoDescription, items);
      once.wrote && once.desc.tool == Some("rtp-tool") && !MergeItemsIntended(once.desc, items).wrote
  {
  }

  /** With the intended comparison, the TOOL value of ToolSuppressedByLocation is stored. */
  lemma ToolStoredDespiteLocationIntended()
    ensures var items := [Location(Some("lab")), Tool(Some("lab"))];
      MergeItemsIntended(NoDescription, items).desc.tool == Some("lab")
  {
  }
}
