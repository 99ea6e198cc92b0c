/**
 Why the resolver may look a path up by slices: the part it makes of its own path reads as
 that slice, and once the part is gone the path is what it was.
 */
module PathLookups {
  import PathEdits
  import opened StringPart

  lemma ClipIsSlice(path: string, idx: nat, off: nat)
    requires |path| <= NPOS
    ensures PathEdits.Clip(path, idx, off) == Slice(path, idx, off)
  {
  }

  /** A lookup: the part is made of the path, read as a C string, and cleared. */
  lemma LookupKeepsPath(path: string, idx: nat, off: nat)
    requires NulFree(path) && |path| <= NPOS
    ensures
      var make := Make(Request(idx, off));
      var during, after := Run(Nest(path, []), [make]), Run(Nest(path, []), [make, Clear]);
      && Showing(during) && CString(during.text, Top(during).offset) == PathEdits.Clip(path, idx, off)
      && after == Nest(path, [])
  {
    hide Requested, Run, InUse, CString, Slice;
    var r := Request(idx, off);
    ClipIsSlice(path, idx, off);
    OneLookup(path, r);
    NestIsFaithful(path, [Make(r)]);
    RunIsBuilt(path, [], [Make(r), Clear]);
  }

  lemma OneLookup(path: string, r: Request)
    ensures InUse([], [Make(r)]) == [r] && InUse([], [Make(r), Clear]) == []
    ensures Requested(path, [r]) == Slice(path, r.idx, r.off)
  {
    assert [Make(r)][1..] == [] && [Make(r), Clear][1..] == [Clear] && [Clear][1..] == [];
    assert [] + [r] == [r] && [r][..0] == [];
  }
}
