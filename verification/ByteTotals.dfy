/** Totals over finite sets of files. */
module ByteTotals {

  ghost function Total<F(!new)>(files: set<F>, len: F -> nat): nat {
    if files == {} then 0
    else
      var f :| f in files;
      len(f) + Total(files - {f}, len)
  }

  lemma {:induction false} TotalRemove<F(!new)>(files: set<F>, len: F -> nat, f: F)
    requires f in files
    ensures Total(files, len) == len(f) + Total(files - {f}, len)
  {
    var g :| g in files && Total(files, len) == len(g) + Total(files - {g}, len);
    if f != g {
      TotalRemove(files - {g}, len, f);
      TotalRemove(files - {f}, len, g);
      assert files - {f} - {g} == files - {g} - {f};
    }
  }

  lemma {:induction false} TotalSplit<F(!new)>(files: set<F>, part: set<F>, len: F -> nat)
    requires part <= files
    ensures Total(files, len) == Total(part, len) + Total(files - part, len)
    decreases part
  {
    if part == {} {
      assert files - part == files;
    } else {
      var f :| f in part;
      TotalRemove(files, len, f);
      TotalRemove(part, len, f);
      TotalSplit(files - {f}, part - {f}, len);
      assert files - {f} - (part - {f}) == files - part;
    }
  }

  lemma {:induction false} TotalAgree<F(!new)>(files: set<F>, a: F -> nat, b: F -> nat)
    requires forall f :: f in files ==> a(f) == b(f)
    ensures Total(files, a) == Total(files, b)
  {
    if files != {} {
      var f :| f in files;
      TotalRemove(files, a, f);
      TotalRemove(files, b, f);
      TotalAgree(files - {f}, a, b);
    }
  }
}
