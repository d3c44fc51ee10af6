/** The two file-name sanitisers of the upload forms. Dropzone.js trims the
    name first (client/src/components/Dropzone.js:79-84);
    AddFileToProject.js does not (client/src/components/AddFileToProject.js:43-45).
    Both turn whitespace runs into `_` and drop every character outside
    `[A-Za-z0-9_.-]`. */
module FileNames {
  import opened Strings

  /** `fileName.trim().replace(/\s+/g, '_').replace(/[^\w.-]/g, '')`. */
  function SanitizeFileName(name: string): (r: string)
    ensures AllSafe(r) && |r| <= |name|
  {
    TrimStartShape(name);
    TrimEndShape(TrimStart(name));
    KeepSafe(CollapseSpaces(Trim(name)))
  }

  /** `file.name.replace(/\s+/g, '_').replace(/[^a-zA-Z0-9_.-]/g, '')`. */
  function SanitizeUntrimmed(name: string): (r: string)
    ensures AllSafe(r) && |r| <= |name|
  {
    KeepSafe(CollapseSpaces(name))
  }

  /** A safe name is left alone by both sanitisers, so sanitising twice is
      sanitising once. */
  lemma SafeNameFixed(s: string)
    requires AllSafe(s)
    ensures SanitizeFileName(s) == s && SanitizeUntrimmed(s) == s
  {
    SafeHasNoSpace(s);
    TrimNoSpace(s);
    CollapseNoSpace(s);
    KeepSafeIdentity(s);
  }

  lemma SanitizeIdempotent(name: string)
    ensures SanitizeFileName(SanitizeFileName(name)) == SanitizeFileName(name)
    ensures SanitizeUntrimmed(SanitizeUntrimmed(name)) == SanitizeUntrimmed(name)
  {
    SafeNameFixed(SanitizeFileName(name));
    SafeNameFixed(SanitizeUntrimmed(name));
  }

  /** Inside a name, a run of whitespace becomes a single `_` under both. */
  lemma InnerRunUnderscore(a: string, w: string, b: string)
    requires a != [] && !IsSpace(a[0]) && !IsSpace(a[|a| - 1])
    requires b != [] && !IsSpace(b[0]) && !IsSpace(b[|b| - 1])
    requires AllSpace(w) && w != []
    ensures SanitizeUntrimmed(a + w + b) == SanitizeUntrimmed(a) + "_" + SanitizeUntrimmed(b)
    ensures SanitizeFileName(a + w + b) == SanitizeUntrimmed(a) + "_" + SanitizeUntrimmed(b)
  {
    TrimKeepsInnerRun(a, w, b);
    CollapseRun(a, w, b);
    var ca, cb := CollapseSpaces(a), CollapseSpaces(b);
    KeepSafeAppend(ca + "_", cb);
    KeepSafeAppend(ca, "_");
    assert KeepSafe("_") == "_";
  }

  /** A name whose first and last characters are not whitespace is left
      alone by the trim, whatever it holds inside. */
  lemma TrimKeepsInnerRun(a: string, w: string, b: string)
    requires a != [] && !IsSpace(a[0])
    requires b != [] && !IsSpace(b[|b| - 1])
    ensures Trim(a + w + b) == a + w + b
  {
    var s := a + w + b;
    assert s[0] == a[0];
    assert |s| == |a + w| + |b| && s[|s| - 1] == (a + w + b)[|a + w| + |b| - 1] == b[|b| - 1];
    assert TrimStart(s) == s;
    assert TrimEnd(s) == s;
  }

  /** A no-break space between two safe names is whitespace too: it
      becomes `_`, so `a\u00A0b.mov` gives `a_b.mov`. */
  lemma NoBreakSpaceInName(a: string, b: string)
    requires a != [] && b != [] && AllSafe(a) && AllSafe(b)
    ensures SanitizeFileName(a + "\U{00A0}" + b) == a + "_" + b
  {
    SafeHasNoSpace(a);
    SafeHasNoSpace(b);
    SafeNameFixed(a);
    SafeNameFixed(b);
    InnerRunUnderscore(a, "\U{00A0}", b);
  }

  /** Leading whitespace is where the two differ: Dropzone drops it,
      AddFileToProject keeps a `_` for it. */
  lemma LeadingSpaces(sp: string, x: string)
    requires AllSpace(sp) && sp != []
    requires x == [] || !IsSpace(x[0])
    ensures SanitizeFileName(sp + x) == SanitizeFileName(x)
    ensures SanitizeUntrimmed(sp + x) == "_" + SanitizeUntrimmed(x)
  {
    TrimStartSpaces(sp, x);
    assert TrimStart(x) == x;
    CollapseLeadingSpaces(sp, x);
    KeepSafeAppend("_", CollapseSpaces(x));
    assert KeepSafe("_") == "_";
  }
}
