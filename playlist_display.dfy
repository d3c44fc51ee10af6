/** The draggable playlist of a project page,
    client/src/components/PlaylistDisplay.js. The drag start stores the
    index as text; the drop moves the dragged file to the drop index. */
module PlaylistDisplay {
  import opened JsValues
  import opened Strings
  import opened Store
  import opened ListMoves

  predicate AllDigits(s: string)
  {
    forall i :: 0 <= i < |s| ==> IsDigit(s[i])
  }

  /** What `splice` makes of the text read back from `text/plain`
      (`ToIntegerOrInfinity(dragIndex)`): a digit string, optionally signed
      and surrounded by whitespace, is its number; empty or all-whitespace
      text is 0; other text is NaN, which `splice` also reads as 0. */
  function TextIndex(data: string): (r: int)
    ensures data != [] && AllDigits(data) ==> r == DigitsValue(data)
    ensures Trim(data) == [] ==> r == 0
  {
    if data != [] && AllDigits(data) then
      assert NoSpace(data) by {
        forall i | 0 <= i < |data| ensures !IsSpace(data[i]) { assert IsDigit(data[i]); }
      }
      TrimNoSpace(data);
      DigitsValue(data)
    else
      var t := Trim(data);
      if t == [] then 0
      else if AllDigits(t) then DigitsValue(t)
      else if |t| > 1 && (t[0] == '-' || t[0] == '+') && AllDigits(t[1..]) then
        if t[0] == '-' then 0 - DigitsValue(t[1..]) as int else DigitsValue(t[1..])
      else 0
  }

  /** `handleDrop(event, dropIndex)` as written, for any `text/plain` data,
      on the list as JavaScript holds it (`None` is `undefined`). The `===`
      guard compares text with a number and never holds. `splice(dragIndex, 1)`
      cuts the file at the start read from the text, or nothing when that
      start is the end of the list; `splice(dropIndex, 0, movedFile)` puts
      back what was cut, or `undefined`. */
  function DropAsWritten<T>(files: seq<T>, data: string, dropIndex: nat): (r: seq<Option<T>>)
    requires dropIndex < |files|
    ensures var from := SpliceStart(TextIndex(data), |files|);
      (from < |files| ==> r == Lift(Move(files, from, dropIndex)) && multiset(r) == multiset(Lift(files))) &&
      (from == |files| ==> |r| == |files| + 1 && r[dropIndex] == None)
  {
    var from := SpliceStart(TextIndex(data), |files|);
    if from < |files| then
      LiftMove(files, from, dropIndex);
      MovePermutes(Lift(files), from, dropIndex);
      Move(Lift(files), from, dropIndex)
    else InsertAt(Lift(files), dropIndex, None)
  }

  /** A drop that carries no row index (a file from the desktop, whose
      `text/plain` is empty) still moves the first file to the drop row. */
  lemma ForeignDropMovesFirst<T>(files: seq<T>, dropIndex: nat)
    requires 0 < dropIndex < |files| && files[0] != files[dropIndex]
    ensures DropAsWritten(files, "", dropIndex) == Lift(Move(files, 0, dropIndex))
    ensures DropAsWritten(files, "", dropIndex)[dropIndex] == Some(files[0]) != Some(files[dropIndex])
  {
    assert Trim("") == [];
    MoveLands(files, 0, dropIndex);
  }

  /** The row a drag from this list started at, when `data` is the index a
      row's `handleDragStart` stored (`String(i)` for a row `i`). */
  function DraggedRow(data: string, len: nat): (r: Option<nat>)
    ensures r.Some? ==> r.value < len && data == NatToString(r.value) && TextIndex(data) == r.value
  {
    if data != [] && AllDigits(data) && DigitsValue(data) < len && NatToString(DigitsValue(data)) == data then
      Some(DigitsValue(data))
    else None
  }

  /** Every row's own drag start is recognised as that row. */
  lemma DraggedRowOfStart(i: nat, len: nat)
    requires i < len
    ensures DraggedRow(NatToString(i), len) == Some(i)
  {
    NatToStringRoundTrip(i);
  }

  class PlaylistDisplay {
    var files: seq<FileRecord>

    constructor (playlistFiles: seq<FileRecord>)
      ensures files == playlistFiles
    {
      files := playlistFiles;
    }

    /** The effect hook: a new `playlistFiles` prop replaces the list. */
    method Sync(playlistFiles: seq<FileRecord>)
      modifies this
      ensures files == playlistFiles
    {
      files := playlistFiles;
    }

    /** `handleDrop`, as intended: a drop from a row moves that row's file
        to the drop index, exactly as the source does; a drop whose data is
        not a row index (a file or text dragged in from elsewhere) is
        ignored. The `dragIndex === dropIndex` guard compares text with a
        number and never fires; a drop on its own row still changes nothing. */
    method HandleDrop(data: string, dropIndex: nat)
      requires dropIndex < |files|
      modifies this
      ensures DraggedRow(data, |old(files)|).None? ==> files == old(files)
      ensures DraggedRow(data, |old(files)|).Some? ==>
        var from := DraggedRow(data, |old(files)|).value;
        files == Move(old(files), from, dropIndex) &&
        multiset(files) == multiset(old(files)) && files[dropIndex] == old(files)[from] &&
        Lift(files) == DropAsWritten(old(files), data, dropIndex)
      ensures DraggedRow(data, |old(files)|) == Some(dropIndex) ==> files == old(files)
    {
      var row := DraggedRow(data, |files|);
      if row.None? || StrictEq(Str(data), Num(dropIndex)) {
        return;
      }
      var from := row.value;
      var reordered := files;
      var movedFile := reordered[from];
      reordered := RemoveAt(reordered, from);
      reordered := InsertAt(reordered, dropIndex, movedFile);
      MovePermutes(files, from, dropIndex);
      MoveLands(files, from, dropIndex);
      MoveBack(files, from, dropIndex);
      LiftMove(files, from, dropIndex);
      files := reordered;
    }
  }
}
