/** What finalizing a target's attributes guarantees about its arch table. */
module GnTargetProperties {
  import opened GnTarget

  /** Everything a set attribute holds, in common or in any architecture. */
  function Everything(m: map<string, Arch>, k: Attribute): (r: set<string>)
    requires IsSetAttribute(k)
    ensures forall x :: x in r <==> exists a :: a in m && x in GetSet(m[a], k)
  {
    set a, x | a in m && x in GetSet(m[a], k) :: x
  }

  /** After _finalize_set_attribute, common holds what it held and what every architecture shared. */
  lemma FinalizeSetHoistsShared(m: map<string, Arch>, k: Attribute)
    requires CommonArch in m && IsSetAttribute(k) && Archs(m) != {}
    ensures var r := FinalizeSet(m, k);
      GetSet(m[CommonArch], k) <= GetSet(r[CommonArch], k) && ArchIntersection(m, k) <= GetSet(r[CommonArch], k)
  {
  }

  /** After _finalize_set_attribute, no architecture repeats what common holds. */
  lemma FinalizeSetSeparates(m: map<string, Arch>, k: Attribute)
    requires CommonArch in m && IsSetAttribute(k) && Archs(m) != {}
    ensures var r := FinalizeSet(m, k);
      forall a :: a in Archs(r) ==> GetSet(r[a], k) !! GetSet(r[CommonArch], k)
  {
  }

  /** _finalize_set_attribute moves elements between common and the architectures but loses and invents none. */
  lemma FinalizeSetKeepsEverything(m: map<string, Arch>, k: Attribute)
    requires CommonArch in m && IsSetAttribute(k) && Archs(m) != {}
    ensures Everything(FinalizeSet(m, k), k) == Everything(m, k)
  {
    var r := FinalizeSet(m, k);
    var common := NewCommon(m, k);
    var a0 :| a0 in Archs(m);
    assert common <= GetSet(m[CommonArch], k) + GetSet(m[a0], k);
    MovingKeepsEverything(m, r, k, common, a0);
  }

  /**
   Moving elements into common that common or one architecture already held, and taking
   from each architecture what common now holds, keeps the whole.
   */
  lemma MovingKeepsEverything(m: map<string, Arch>, r: map<string, Arch>, k: Attribute, common: set<string>, a0: string)
    requires CommonArch in m && IsSetAttribute(k) && r.Keys == m.Keys && a0 in Archs(m)
    requires GetSet(m[CommonArch], k) <= common <= GetSet(m[CommonArch], k) + GetSet(m[a0], k)
    requires GetSet(r[CommonArch], k) == common
    requires forall a :: a in Archs(m) ==> GetSet(r[a], k) == GetSet(m[a], k) - common
    ensures Everything(r, k) == Everything(m, k)
  {
    forall x | x in Everything(m, k)
      ensures x in Everything(r, k)
    {
      var a :| a in m && x in GetSet(m[a], k);
      var b := if x in common then CommonArch else a;
      assert b in r && x in GetSet(r[b], k);
    }
    forall x | x in Everything(r, k)
      ensures x in Everything(m, k)
    {
      var a :| a in r && x in GetSet(r[a], k);
      var b := if a == CommonArch && x !in GetSet(m[CommonArch], k) then a0 else a;
      assert b in m && x in GetSet(m[b], k);
    }
  }

  /** After _finalize_set_attribute, the architectures share nothing more. */
  lemma FinalizeSetLeavesNothingShared(m: map<string, Arch>, k: Attribute)
    requires CommonArch in m && IsSetAttribute(k) && Archs(m) != {}
    ensures ArchIntersection(FinalizeSet(m, k), k) == {}
  {
  }

  /** Writing back the value an attribute already has changes nothing. */
  lemma WithSetSame(a: Arch, k: Attribute)
    requires IsSetAttribute(k)
    ensures WithSet(a, k, GetSet(a, k)) == a
  {
  }

  /** A table whose architectures share nothing and repeat nothing of common is left alone by finalizing. */
  lemma {:induction false} FinalizeSetFixes(m: map<string, Arch>, k: Attribute)
    requires CommonArch in m && IsSetAttribute(k) && Archs(m) != {}
    requires ArchIntersection(m, k) == {}
    requires forall a :: a in Archs(m) ==> GetSet(m[a], k) !! GetSet(m[CommonArch], k)
    ensures FinalizeSet(m, k) == m
  {
    assert NewCommon(m, k) == GetSet(m[CommonArch], k);
    WithSetSame(m[CommonArch], k);
    forall a | a in Archs(m)
      ensures m[a] == WithSet(m[a], k, GetSet(m[a], k) - NewCommon(m, k))
    {
      assert GetSet(m[a], k) - NewCommon(m, k) == GetSet(m[a], k);
      WithSetSame(m[a], k);
    }
    FinalizeSetPointwise(m, k, m);
  }

  /** Finalizing a set attribute twice is finalizing it once. */
  lemma FinalizeSetIdempotent(m: map<string, Arch>, k: Attribute)
    requires CommonArch in m && IsSetAttribute(k) && Archs(m) != {}
    ensures FinalizeSet(FinalizeSet(m, k), k) == FinalizeSet(m, k)
  {
    FinalizeSetLeavesNothingShared(m, k);
    FinalizeSetSeparates(m, k);
    FinalizeSetFixes(FinalizeSet(m, k), k);
  }

  /** The attributes of an architecture other than `k`, which finalizing `k` must not touch. */
  predicate SameExcept(x: Arch, y: Arch, k: Attribute) {
    && (forall k' :: IsSetAttribute(k') && k' != k ==> GetSet(x, k') == GetSet(y, k'))
    && (forall k' :: !IsSetAttribute(k') && k' != k ==> GetPlain(x, k') == GetPlain(y, k'))
  }

  /** Finalizing one set attribute leaves every other attribute of every architecture as it was. */
  lemma FinalizeSetTouchesOnlyIt(m: map<string, Arch>, k: Attribute)
    requires CommonArch in m && IsSetAttribute(k) && Archs(m) != {}
    ensures var r := FinalizeSet(m, k); forall a :: a in m ==> SameExcept(r[a], m[a], k)
  {
  }

  /** Finalizing a list or string attribute changes only common's value of it; the architectures keep theirs. */
  lemma FinalizePlainTouchesOnlyCommon(m: map<string, Arch>, k: Attribute)
    requires CommonArch in m && !IsSetAttribute(k) && Archs(m) != {}
    ensures var r := FinalizePlain(m, k);
      r.Keys == m.Keys && (forall a :: a in Archs(m) ==> r[a] == m[a]) && SameExcept(r[CommonArch], m[CommonArch], k)
  {
    if exists a :: a in Archs(m) && UnanimousOn(m, k, GetPlain(m[a], k)) {
      var a :| a in Archs(m) && UnanimousOn(m, k, GetPlain(m[a], k));
      assert FinalizePlain(m, k) == m[CommonArch := WithPlain(m[CommonArch], k, GetPlain(m[a], k))];
    }
  }

  /** Finalizing a list or string attribute twice is finalizing it once. */
  lemma FinalizePlainIdempotent(m: map<string, Arch>, k: Attribute)
    requires CommonArch in m && !IsSetAttribute(k) && Archs(m) != {}
    ensures FinalizePlain(FinalizePlain(m, k), k) == FinalizePlain(m, k)
  {
    var r := FinalizePlain(m, k);
    FinalizePlainTouchesOnlyCommon(m, k);
    assert Archs(r) == Archs(m);
    if exists a :: a in Archs(m) && UnanimousOn(m, k, GetPlain(m[a], k)) {
      var a :| a in Archs(m) && UnanimousOn(m, k, GetPlain(m[a], k));
      assert UnanimousOn(r, k, GetPlain(r[a], k));
      assert r[CommonArch := WithPlain(r[CommonArch], k, GetPlain(r[a], k))] == r;
    }
  }

  /** Separation of `k` between common and the architectures. */
  predicate Separated(m: map<string, Arch>, k: Attribute)
    requires CommonArch in m && IsSetAttribute(k)
  {
    forall a :: a in Archs(m) ==> GetSet(m[a], k) !! GetSet(m[CommonArch], k)
  }

  /** One step of finalize keeps another set attribute separated between common and the architectures. */
  lemma FinalizeAttributeKeepsSeparation(m: map<string, Arch>, k: Attribute, k2: Attribute)
    requires CommonArch in m && Archs(m) != {} && IsSetAttribute(k) && k2 != k
    requires Separated(m, k)
    ensures Separated(FinalizeAttributeOf(m, k2), k)
  {
    var r := FinalizeAttributeOf(m, k2);
    if IsSetAttribute(k2) {
      FinalizeSetTouchesOnlyIt(m, k2);
    } else {
      FinalizePlainTouchesOnlyCommon(m, k2);
    }
    SameSetsKeepSeparation(m, r, k);
  }

  /** Two tables with the same architectures and the same sets for `k` agree on its separation. */
  lemma SameSetsKeepSeparation(m: map<string, Arch>, r: map<string, Arch>, k: Attribute)
    requires CommonArch in m && IsSetAttribute(k) && r.Keys == m.Keys
    requires forall a :: a in m ==> GetSet(r[a], k) == GetSet(m[a], k)
    ensures Separated(m, k) ==> Separated(r, k)
  {
  }

  /**
   After finalize, every set attribute it visits is separated: no architecture repeats
   what common holds.
   */
  lemma {:induction false} FinalizeAllSeparates(m: map<string, Arch>, ks: seq<Attribute>, k: Attribute)
    requires CommonArch in m && Archs(m) != {} && IsSetAttribute(k) && k in ks
    ensures Separated(FinalizeAll(m, ks), k)
  {
    var prefix := ks[..|ks| - 1];
    var last := ks[|ks| - 1];
    var before := FinalizeAll(m, prefix);
    assert Archs(before) == Archs(m);
    if last == k {
      FinalizeSetSeparates(before, k);
    } else {
      assert k in prefix by {
        var i :| 0 <= i < |ks| && ks[i] == k;
        assert i < |ks| - 1 && prefix[i] == k;
      }
      FinalizeAllSeparates(m, prefix, k);
      FinalizeAttributeKeepsSeparation(before, k, last);
    }
  }
}
