/** The rendered-files list, client/src/components/RenderFiles.js: the
    header shown for a rendered file, and the open/closed state of each
    entry. */
module RenderFiles {
  import opened JsValues
  import opened Strings

  /** `replace(/_/g, ' ')`. */
  function Unscore(s: string): (r: string)
    ensures |r| == |s|
    ensures forall i :: 0 <= i < |s| ==> r[i] == if s[i] == '_' then ' ' else s[i]
  {
    if s == [] then [] else [if s[0] == '_' then ' ' else s[0]] + Unscore(s[1..])
  }

  /** `\d{4}-\d{2}-\d{2} \d{2}:\d{2}:\d{2}`: 19 characters. */
  predicate IsStamp(t: string)
  {
    |t| == 19 &&
    (forall i :: 0 <= i < 19 && i != 4 && i != 7 && i != 10 && i != 13 && i != 16 ==> IsDigit(t[i])) &&
    t[4] == '-' && t[7] == '-' && t[10] == ' ' && t[13] == ':' && t[16] == ':'
  }

  /** A stamp starts at position `k`. */
  predicate StampAt(s: string, k: nat)
  {
    k + 19 <= |s| && IsStamp(s[k..k + 19])
  }

  /** The first position from `from` on where a stamp starts. */
  function StampFrom(s: string, from: nat): (r: Option<nat>)
    ensures r.Some? ==> from <= r.value && StampAt(s, r.value) &&
                        forall k :: from <= k < r.value ==> !StampAt(s, k)
    ensures r.None? ==> forall k :: from <= k ==> !StampAt(s, k)
    decreases |s| - from
  {
    if from + 19 > |s| then None
    else if StampAt(s, from) then Some(from)
    else StampFrom(s, from + 1)
  }

  /** `replace(/stamp/, '')`: without the `g` flag only the leftmost stamp goes. */
  function RemoveFirstStamp(s: string): (r: string)
    ensures StampFrom(s, 0).None? ==> r == s
    ensures StampFrom(s, 0).Some? ==>
      var k := StampFrom(s, 0).value; r == s[..k] + s[k + 19..]
  {
    match StampFrom(s, 0)
    case None => s
    case Some(k) => s[..k] + s[k + 19..]
  }

  /** The header of a rendered file: underscores shown as spaces, the first
      timestamp removed, then trimmed. */
  function Header(fileName: string): string
  {
    Trim(RemoveFirstStamp(Unscore(fileName)))
  }

  /** Removing a stamp brings in no character. */
  lemma RemoveFirstStampWithout(s: string, ch: char)
    requires forall p :: 0 <= p < |s| ==> s[p] != ch
    ensures forall p :: 0 <= p < |RemoveFirstStamp(s)| ==> RemoveFirstStamp(s)[p] != ch
  {
    var r := RemoveFirstStamp(s);
    forall p | 0 <= p < |r| ensures r[p] != ch {
      match StampFrom(s, 0)
      case None =>
      case Some(k) =>
        if p < k {
          assert r[p] == s[p];
        } else {
          assert r[p] == s[p + 19];
        }
    }
  }

  /** The header never shows an underscore. */
  lemma HeaderNoUnderscore(fileName: string)
    ensures '_' !in Header(fileName)
  {
    var u := Unscore(fileName);
    RemoveFirstStampWithout(u, '_');
    var r := RemoveFirstStamp(u);
    var t := TrimStart(r);
    TrimStartShape(r);
    TrimEndShape(t);
    var h := TrimEnd(t);
    forall p | 0 <= p < |h| ensures h[p] != '_' {
      assert h[p] == t[p] == r[|r| - |t| + p];
    }
  }

  /** Only the leftmost stamp is removed: a second stamp that starts after
      the first one ends is still in the text, moved left by 19. */
  lemma OnlyFirstStampRemoved(s: string, k: nat)
    requires StampFrom(s, 0).Some? && StampFrom(s, 0).value + 19 <= k && StampAt(s, k)
    ensures StampAt(RemoveFirstStamp(s), k - 19)
  {
    var f := StampFrom(s, 0).value;
    var r := RemoveFirstStamp(s);
    assert r[k - 19..k] == s[k..k + 19];
  }

  /** A name without a stamp loses only its underscores and outer spaces. */
  lemma NoStampHeader(fileName: string)
    requires forall k :: !StampAt(Unscore(fileName), k)
    ensures Header(fileName) == Trim(Unscore(fileName))
  {
  }

  /** `toggleFile`: the entry's flag is negated, an entry never toggled
      counting as closed; every other entry keeps its flag. */
  function ToggleFile(open: map<string, bool>, fileId: string): (r: map<string, bool>)
    ensures r.Keys == open.Keys + {fileId}
    ensures r[fileId] == !(fileId in open && open[fileId])
    ensures forall id :: id in open && id != fileId ==> r[id] == open[id]
  {
    open[fileId := !(fileId in open && open[fileId])]
  }

  /** Two clicks close an entry opened by the first, or leave a known entry
      as it was. */
  lemma ToggleFileTwice(open: map<string, bool>, fileId: string)
    ensures ToggleFile(ToggleFile(open, fileId), fileId) == open[fileId := fileId in open && open[fileId]]
    ensures fileId in open ==> ToggleFile(ToggleFile(open, fileId), fileId) == open
  {
  }
}
