/** code/util/List.py: a song list of the list menu (class SongList). A
    list file gives three lines: the title, the description (its lines
    separated by '\n') and the songs, each written `song,chart.json`. The
    file system is the predicate `onDisk` on paths; text placement, fonts,
    colours as RGB values and sounds are not modelled. */
module ListMenu {
  import opened PyCore
  import opened Classes

  // ---------------------------------------------------------------------
  // Parsing the list file
  // ---------------------------------------------------------------------

  /** str.split on each piece, in order. */
  function SplitEach(pieces: seq<string>, sep: string): (r: seq<seq<string>>)
    requires |sep| > 0
    ensures |r| == |pieces|
    ensures forall x :: 0 <= x < |r| ==> r[x] == Split(pieces[x], sep)
  {
    if pieces == [] then [] else [Split(pieces[0], sep)] + SplitEach(pieces[1..], sep)
  }

  /** Joining each entry back with sep. */
  function JoinEach(entries: seq<seq<string>>, sep: string): (r: seq<string>)
    ensures |r| == |entries|
    ensures forall x :: 0 <= x < |r| ==> r[x] == Join(entries[x], sep)
  {
    if entries == [] then [] else [Join(entries[0], sep)] + JoinEach(entries[1..], sep)
  }

  /** The pieces of the songs line between '.json' markers, '\n' removed;
      the last piece is the text after the last marker. */
  function SongPieces(line: string): (r: seq<string>)
    ensures |r| >= 1
  {
    Split(RemoveChar(line, '\n'), ".json")
  }

  /** songs_to_load: each piece before the last split on ',', so that an
      entry is [song, chart] for a well-formed line. */
  function SongsToLoad(line: string): (r: seq<seq<string>>)
    ensures |r| == |SongPieces(line)| - 1
    ensures forall x :: 0 <= x < |r| ==> |r[x]| >= 1
  {
    var pieces := SongPieces(line);
    SplitEach(pieces, ",")[..|pieces| - 1]
  }

  /** The text of a song row: `song - chart.json` (IndexError for an entry
      without a ','). */
  function SongRow(entry: seq<string>): string
    requires |entry| >= 2
  {
    entry[0] + " - " + entry[1] + ".json"
  }

  /** The song rows, or the IndexError the first entry without a chart
      raises. */
  function SongRows(songs: seq<seq<string>>): (r: Result<seq<string>>)
  {
    if forall x :: 0 <= x < |songs| ==> |songs[x]| >= 2 then
      Ok(seq(|songs|, x requires 0 <= x < |songs| => SongRow(songs[x])))
    else Err(IndexError)
  }

  /** The description rows: row x shows line x - 1, with Python's negative
      index, so row 0 shows the last line. */
  function DescRows(lines: seq<string>): (r: seq<string>)
    requires |lines| >= 1
  {
    seq(|lines|, x requires 0 <= x < |lines| => PyIndex(lines, x - 1))
  }

  /** The file a listed song must have: songs/<song>/<song>.mp3. */
  function SongPath(song: string): string {
    "songs/" + song + "/" + song + ".mp3"
  }

  predicate AllSongsExist(songs: seq<seq<string>>, onDisk: string -> bool)
    requires forall x :: 0 <= x < |songs| ==> |songs[x]| >= 1
  {
    forall x :: 0 <= x < |songs| ==> onDisk(SongPath(songs[x][0]))
  }

  /** The play button's text. */
  datatype PlayLabel = Play | NoSongs | InvalidSongs

  /** 'No Songs' for an empty list, 'Invalid Song(s)' when a listed song's
      file is missing, 'Play' otherwise. */
  function LabelFor(songs: seq<seq<string>>, onDisk: string -> bool): (r: PlayLabel)
    requires forall x :: 0 <= x < |songs| ==> |songs[x]| >= 1
    ensures r == Play <==> |songs| > 0 && AllSongsExist(songs, onDisk)
    ensures r == NoSongs <==> |songs| == 0
    ensures r == InvalidSongs <==> !AllSongsExist(songs, onDisk)
  {
    if !AllSongsExist(songs, onDisk) then InvalidSongs
    else if |songs| > 0 then Play
    else NoSongs
  }

  /** What SongList.__init__ builds from the file's lines. */
  datatype ListData = ListData(
    title: string, descRows: seq<string>, songs: seq<seq<string>>, songRows: seq<string>, playLabel: PlayLabel)

  /** The whole of __init__'s parsing; a file of fewer than three lines
      raises IndexError, as does an entry without a chart. */
  function ParseList(data: seq<string>, onDisk: string -> bool): Result<ListData> {
    if |data| < 3 then Err(IndexError)
    else
      var songs := SongsToLoad(data[2]);
      match SongRows(songs)
      case Err(e) => Err(e)
      case Ok(rows) =>
        Ok(ListData(RemoveChar(data[0], '\n'), DescRows(Split(data[1], "\n")), songs, rows, LabelFor(songs, onDisk)))
  }

  // ---------------------------------------------------------------------
  // Properties of the parsing
  // ---------------------------------------------------------------------

  /** The songs line is split without loss: joining every entry with ','
      and the entries and the text after the last marker with '.json'
      gives back the line without its '\n's. */
  lemma SongsToLoadLosesNothing(line: string)
    ensures var pieces := SongPieces(line);
      Join(JoinEach(SongsToLoad(line), ",") + [pieces[|pieces| - 1]], ".json") == RemoveChar(line, '\n')
  {
    var pieces := SongPieces(line);
    var songs := SongsToLoad(line);
    var n := |pieces|;
    var back := JoinEach(songs, ",") + [pieces[n - 1]];
    forall x | 0 <= x < n ensures back[x] == pieces[x] {
      if x < n - 1 {
        assert back[x] == Join(songs[x], ",");
        assert songs[x] == Split(pieces[x], ",");
      }
    }
    assert back == pieces;
  }

  /** Joining the parts with sep and splitting on it again gives the parts
      back when no part holds sep's first character. */
  lemma {:induction false} SplitJoin(parts: seq<string>, sep: string)
    requires |sep| > 0 && |parts| >= 1
    requires forall x :: 0 <= x < |parts| ==> sep[0] !in parts[x]
    ensures Split(Join(parts, sep), sep) == parts
    decreases |parts|
  {
    var s := Join(parts, sep);
    var p := parts[0];
    if |parts| > 1 {
      assert s == p + sep + Join(parts[1..], sep);
    }
    forall j: nat | j < |p| ensures !OccursAt(s, sep, j) {
      assert s[j] == p[j] != sep[0];
      if j + |sep| <= |s| {
        assert s[j..j + |sep|][0] == s[j];
      }
    }
    if |parts| == 1 {
      assert forall j: nat :: !OccursAt(s, sep, j);
    } else {
      var rest := Join(parts[1..], sep);
      assert s == p + sep + rest;
      assert s[|p|..|p| + |sep|] == sep;
      assert OccursAt(s, sep, |p|);
      assert Find(s, sep) == Some(|p|);
      assert s[..|p|] == p;
      assert s[|p| + |sep|..] == rest;
      SplitJoin(parts[1..], sep);
    }
  }

  /** A character in neither the parts nor sep is not in their join. */
  lemma {:induction false} JoinAvoids(parts: seq<string>, sep: string, c: char)
    requires c !in sep && forall x :: 0 <= x < |parts| ==> c !in parts[x]
    ensures c !in Join(parts, sep)
    decreases |parts|
  {
    if |parts| > 1 {
      JoinAvoids(parts[1..], sep, c);
    }
  }

  /** The songs line a list file would hold for these entries. */
  function SongsLine(entries: seq<seq<string>>): string {
    if entries == [] then "" else Join(entries[0], ",") + ".json" + SongsLine(entries[1..])
  }

  /** Names that survive the file format: no ',', '.' or '\n'. */
  predicate PlainNames(entries: seq<seq<string>>) {
    forall x, y :: 0 <= x < |entries| && 0 <= y < |entries[x]| ==>
      ',' !in entries[x][y] && '.' !in entries[x][y] && '\n' !in entries[x][y]
  }

  lemma {:induction false} SongsLineIsJoin(entries: seq<seq<string>>)
    ensures SongsLine(entries) == Join(JoinEach(entries, ",") + [""], ".json")
    decreases |entries|
  {
    if entries != [] {
      SongsLineIsJoin(entries[1..]);
      assert JoinEach(entries, ",") + [""] == [Join(entries[0], ",")] + (JoinEach(entries[1..], ",") + [""]);
    }
  }

  /** The '.json' pieces of the songs line for entries of plain names:
      each entry joined with ',' and a last, empty piece. */
  lemma SongsLinePieces(entries: seq<seq<string>>)
    requires PlainNames(entries)
    ensures SongPieces(SongsLine(entries)) == JoinEach(entries, ",") + [""]
  {
    var joined := JoinEach(entries, ",");
    var parts := joined + [""];
    forall x | 0 <= x < |parts| ensures '\n' !in parts[x] && '.' !in parts[x] {
      if x < |joined| {
        assert parts[x] == Join(entries[x], ",");
        JoinAvoids(entries[x], ",", '.');
        JoinAvoids(entries[x], ",", '\n');
      }
    }
    SongsLineIsJoin(entries);
    JoinAvoids(parts, ".json", '\n');
    assert RemoveChar(SongsLine(entries), '\n') == SongsLine(entries);
    SplitJoin(parts, ".json");
  }

  /** Reading back a songs line written for non-empty entries of plain
      names gives the entries. */
  lemma SongsLineRoundTrip(entries: seq<seq<string>>)
    requires PlainNames(entries)
    requires forall x :: 0 <= x < |entries| ==> |entries[x]| >= 1
    ensures SongsToLoad(SongsLine(entries)) == entries
  {
    SongsLinePieces(entries);
    var parts := JoinEach(entries, ",") + [""];
    var songs := SongsToLoad(SongsLine(entries));
    forall x | 0 <= x < |entries| ensures songs[x] == entries[x] {
      assert songs[x] == Split(parts[x], ",");
      SplitJoin(entries[x], ",");
    }
  }

  /** The description rows show every line once, the last one first. */
  lemma DescRowsRotate(lines: seq<string>)
    requires |lines| >= 1
    ensures DescRows(lines) == [lines[|lines| - 1]] + lines[..|lines| - 1]
    ensures multiset(DescRows(lines)) == multiset(lines)
  {
    var n := |lines|;
    assert DescRows(lines) == [lines[n - 1]] + lines[..n - 1];
    assert lines == lines[..n - 1] + [lines[n - 1]];
  }

  // ---------------------------------------------------------------------
  // Building the list (the loops of __init__)
  // ---------------------------------------------------------------------

  /** The append loop over the '.json' pieces, then `del [-1]`. */
  method LoadSongs(line: string) returns (songs: seq<seq<string>>)
    ensures songs == SongsToLoad(line)
  {
    var pieces := Split(RemoveChar(line, '\n'), ".json");
    ghost var all := SplitEach(pieces, ",");
    songs := [];
    var x := 0;
    while x < |pieces|
      invariant 0 <= x <= |pieces| && songs == all[..x]
    {
      assert all[..x + 1] == all[..x] + [all[x]];
      songs := songs + [Split(pieces[x], ",")];
      x := x + 1;
    }
    assert all[..x] == all;
    songs := songs[..|songs| - 1];
  }

  /** The loop creating a text per description line. */
  method BuildDescRows(lines: seq<string>) returns (rows: seq<string>)
    requires |lines| >= 1
    ensures rows == DescRows(lines)
  {
    rows := [];
    var x := 0;
    while x < |lines|
      invariant 0 <= x <= |lines| && |rows| == x
      invariant forall j :: 0 <= j < x ==> rows[j] == PyIndex(lines, j - 1)
    {
      rows := rows + [PyIndex(lines, x - 1)];
      x := x + 1;
    }
  }

  /** The loop creating a text per song, which raises at the first entry
      without a chart. */
  method BuildSongRows(songs: seq<seq<string>>) returns (r: Result<seq<string>>)
    ensures r == SongRows(songs)
  {
    var rows := [];
    var x := 0;
    while x < |songs|
      invariant 0 <= x <= |songs| && |rows| == x
      invariant forall j :: 0 <= j < x ==> |songs[j]| >= 2 && rows[j] == SongRow(songs[j])
    {
      if |songs[x]| < 2 {
        return Err(IndexError);
      }
      rows := rows + [SongRow(songs[x])];
      x := x + 1;
    }
    assert rows == seq(|songs|, x requires 0 <= x < |songs| => SongRow(songs[x]));
    return Ok(rows);
  }

  /** all_good: the loop that stops at the first missing song file. */
  method CheckSongs(songs: seq<seq<string>>, onDisk: string -> bool) returns (allGood: bool)
    requires forall x :: 0 <= x < |songs| ==> |songs[x]| >= 1
    ensures allGood <==> AllSongsExist(songs, onDisk)
  {
    allGood := true;
    var x := 0;
    while x < |songs|
      invariant 0 <= x <= |songs|
      invariant allGood && forall j :: 0 <= j < x ==> onDisk(SongPath(songs[j][0]))
    {
      if !onDisk(SongPath(songs[x][0])) {
        allGood := false;
        break;
      }
      x := x + 1;
    }
  }

  /** SongList.__init__'s parsing, step by step. */
  method Load(data: seq<string>, onDisk: string -> bool) returns (r: Result<ListData>)
    ensures r == ParseList(data, onDisk)
  {
    if |data| < 3 {
      return Err(IndexError);
    }
    var title := RemoveChar(data[0], '\n');
    var songs := LoadSongs(data[2]);
    var desc := BuildDescRows(Split(data[1], "\n"));
    var rows := BuildSongRows(songs);
    if rows.Err? {
      return Err(rows.error);
    }
    var playLabel := if |rows.value| > 0 then Play else NoSongs;
    var allGood := CheckSongs(songs, onDisk);
    if !allGood {
      playLabel := InvalidSongs;
    }
    return Ok(ListData(title, desc, songs, rows.value, playLabel));
  }

  // ---------------------------------------------------------------------
  // Opening and closing
  // ---------------------------------------------------------------------

  /** One event of update's loop: a left press on the body but not on the
      play button toggles the list, one on the play button leaves it (the
      menu starts the songs), and one elsewhere closes it. */
  function ClickOpen(open: bool, hovering: bool, buttonHovering: bool, ev: InputEvent): bool {
    if ev == MouseDown(1) then
      if hovering && !buttonHovering then !open
      else if buttonHovering then open
      else false
    else open
  }

  function ClicksOpen(open: bool, hovering: bool, buttonHovering: bool, events: seq<InputEvent>): bool
    decreases |events|
  {
    if events == [] then open
    else ClicksOpen(ClickOpen(open, hovering, buttonHovering, events[0]), hovering, buttonHovering, events[1..])
  }

  /** The number of left presses among the events. */
  function LeftPresses(events: seq<InputEvent>): nat
    decreases |events|
  {
    if events == [] then 0 else (if events[0] == MouseDown(1) then 1 else 0) + LeftPresses(events[1..])
  }

  /** On the body, each left press flips the list: it ends open exactly
      when it started open and was pressed an even number of times, or
      started closed and was pressed an odd number of times. */
  lemma {:induction false} BodyClicksToggle(open: bool, events: seq<InputEvent>)
    ensures ClicksOpen(open, true, false, events) == (open != (LeftPresses(events) % 2 == 1))
    decreases |events|
  {
    if events != [] {
      BodyClicksToggle(ClickOpen(open, true, false, events[0]), events[1..]);
    }
  }

  /** Away from the list and its button, any left press closes it, and
      without one it stays as it was. */
  lemma {:induction false} OutsideClickCloses(open: bool, events: seq<InputEvent>)
    ensures ClicksOpen(open, false, false, events) == (open && LeftPresses(events) == 0)
    decreases |events|
  {
    if events != [] {
      OutsideClickCloses(ClickOpen(open, false, false, events[0]), events[1..]);
    }
  }

  /** On the play button no click opens or closes the list. */
  lemma {:induction false} ButtonClicksKeepOpen(open: bool, hovering: bool, events: seq<InputEvent>)
    ensures ClicksOpen(open, hovering, true, events) == open
    decreases |events|
  {
    if events != [] {
      ButtonClicksKeepOpen(open, hovering, events[1..]);
    }
  }

  /** A song list on the menu. */
  class SongList {
    const data: ListData
    /** The full height: the body united with the play button, plus 50. */
    const openedHeight: int
    var open: bool
    var hovering: bool
    var buttonHovering: bool
    var highlighted: bool
    var height: int

    /** __init__ once the file is parsed: closed, 100 high, not hovered. */
    constructor (data: ListData, openedHeight: int)
      ensures this.data == data && this.openedHeight == openedHeight
      ensures !open && !hovering && !buttonHovering && !highlighted && height == 100
    {
      this.data := data;
      this.openedHeight := openedHeight;
      open := false;
      hovering := false;
      buttonHovering := false;
      highlighted := false;
      height := 100;
    }

    /** update for one frame: the play button is hit-tested only while the
        list is open (otherwise it keeps its last state); the list is
        highlighted when hovered off the button; the height follows the
        state the frame started in; then every left press goes through
        ClickOpen. */
    method Update(events: seq<InputEvent>, mouseOnBody: bool, mouseOnButton: bool)
      modifies this`open, this`hovering, this`buttonHovering, this`highlighted, this`height
      ensures buttonHovering == (if old(open) then mouseOnButton else old(buttonHovering))
      ensures hovering == mouseOnBody
      ensures highlighted == (mouseOnBody && !buttonHovering)
      ensures height == (if old(open) then openedHeight else 100)
      ensures open == ClicksOpen(old(open), mouseOnBody, buttonHovering, events)
    {
      if open {
        buttonHovering := mouseOnButton;
      }
      hovering := mouseOnBody;
      highlighted := hovering && !buttonHovering;
      height := if open then openedHeight else 100;
      var o := open;
      var i := 0;
      while i < |events|
        invariant 0 <= i <= |events|
        invariant ClicksOpen(old(open), hovering, buttonHovering, events)
               == ClicksOpen(o, hovering, buttonHovering, events[i..])
      {
        assert events[i..][0] == events[i] && events[i..][1..] == events[i + 1..];
        if events[i] == MouseDown(1) {
          if hovering && !buttonHovering {
            o := !o;
          } else if !buttonHovering {
            o := false;
          }
        }
        i := i + 1;
      }
      open := o;
      assert events[i..] == [];
    }
  }
}
