/**
 * The selection loop of `/logs`: the user's most recent conversation log
 * entries, newest first. The log files arrive already read and split into
 * lines, newest file first; each line is what `json.loads` made of it
 * (`None` when it is not JSON and is skipped).
 */
module Logs {
  import opened Wrappers
  import opened Json

  /** Entries shown when the command has no usable argument. */
  const DefaultCount: int := 5
  /** The most entries the command shows. */
  const MaxCount: int := 20

  /** The number of entries asked for: `min(int(arg), 20)`, or 5 when there is no argument or it is not a number. */
  function RequestedCount(arg: Option<Option<int>>): (count: int)
    ensures count <= MaxCount
    ensures arg.None? || arg.value.None? ==> count == DefaultCount
    ensures arg.Some? && arg.value.Some? ==> count == arg.value.value || (count == MaxCount && arg.value.value > MaxCount)
  {
    match arg
    case Some(Some(n)) => if n < MaxCount then n else MaxCount
    case _ => DefaultCount
  }

  function Decoded(line: Option<Json>): seq<Json> {
    if line.Some? then [line.value] else []
  }

  /** The decoded entries of one file, last line first. */
  function RevDecoded(lines: seq<Option<Json>>): (entries: seq<Json>)
    ensures |entries| <= |lines|
  {
    if lines == [] then []
    else
      Decoded(lines[|lines| - 1]) + RevDecoded(lines[..|lines| - 1])
  }

  /** The entries of a file are exactly the lines that decoded. */
  lemma {:induction false} RevDecodedMembers(lines: seq<Option<Json>>)
    ensures forall e :: e in RevDecoded(lines) <==> Some(e) in lines
    decreases |lines|
  {
    if lines != [] {
      var init := lines[..|lines| - 1];
      RevDecodedMembers(init);
      assert lines == init + [lines[|lines| - 1]];
    }
  }

  /** Every decoded entry, newest first: the files in order, each read backwards. */
  function Flat(files: seq<seq<Option<Json>>>): seq<Json> {
    if files == [] then [] else RevDecoded(files[0]) + Flat(files[1..])
  }

  /** `entry.get("user_id") == user_id`, with Python's `True == 1` and `False == 0`. */
  predicate IsUser(v: Option<Json>, userId: int) {
    v == Some(JInt(userId)) || (v == Some(JBool(true)) && userId == 1) || (v == Some(JBool(false)) && userId == 0)
  }

  predicate Belongs(entry: Json, userId: int) {
    entry.JObject? && IsUser(Lookup(entry.fields, "user_id"), userId)
  }

  function Prepend(found: seq<Json>, r: Option<seq<Json>>): Option<seq<Json>> {
    match r
    case None => None
    case Some(more) => Some(found + more)
  }

  /**
   * The first `k` entries of the user, scanning `entries` in order and stopping
   * at the `k`-th; `None` when the scan reaches an entry that is not an object,
   * on which `entry.get` raises.
   */
  function FirstMatches(entries: seq<Json>, userId: int, k: nat): (r: Option<seq<Json>>) {
    if k == 0 || entries == [] then Some([])
    else if !entries[0].JObject? then None
    else
      var rest := FirstMatches(entries[1..], userId, if Belongs(entries[0], userId) then k - 1 else k);
      if Belongs(entries[0], userId) then Prepend([entries[0]], rest) else rest
  }

  /** The scan keeps at most `k` entries, all of them the user's, and fails only on an entry that is not an object. */
  lemma {:induction false} FirstMatchesSound(entries: seq<Json>, userId: int, k: nat)
    ensures var r := FirstMatches(entries, userId, k);
      (r.Some? ==> |r.value| <= k && forall i :: 0 <= i < |r.value| ==> Belongs(r.value[i], userId))
      && (r.None? ==> exists i :: 0 <= i < |entries| && !entries[i].JObject?)
    decreases |entries|
  {
    if k != 0 && entries != [] && entries[0].JObject? {
      var k' := if Belongs(entries[0], userId) then k - 1 else k;
      FirstMatchesSound(entries[1..], userId, k');
      var rest := FirstMatches(entries[1..], userId, k');
      if rest.None? {
        var i :| 0 <= i < |entries[1..]| && !entries[1..][i].JObject?;
        assert entries[i + 1] == entries[1..][i];
      }
    }
  }

  /** All of the user's entries, in order. */
  function Mine(entries: seq<Json>, userId: int): (mine: seq<Json>)
    ensures |mine| <= |entries|
  {
    if entries == [] then []
    else (if Belongs(entries[0], userId) then [entries[0]] else []) + Mine(entries[1..], userId)
  }

  /** `Mine` keeps exactly the entries that belong to the user. */
  lemma {:induction false} MineMembers(entries: seq<Json>, userId: int)
    ensures forall e :: e in Mine(entries, userId) <==> e in entries && Belongs(e, userId)
    decreases |entries|
  {
    if entries != [] {
      MineMembers(entries[1..], userId);
      assert entries == [entries[0]] + entries[1..];
    }
  }

  /** When every entry is an object the scan cannot fail, and it keeps the user's first `k` entries. */
  lemma {:induction false} FirstMatchesTakesMine(entries: seq<Json>, userId: int, k: nat)
    requires forall i :: 0 <= i < |entries| ==> entries[i].JObject?
    ensures var mine := Mine(entries, userId);
      FirstMatches(entries, userId, k) == Some(mine[..if k < |mine| then k else |mine|])
    decreases |entries|
  {
    var mine := Mine(entries, userId);
    if k == 0 || entries == [] {
      assert mine[..0] == [];
    } else {
      var e := entries[0];
      var k' := if Belongs(e, userId) then k - 1 else k;
      assert forall i :: 0 <= i < |entries[1..]| ==> entries[1..][i].JObject? by {
        forall i | 0 <= i < |entries[1..]| ensures entries[1..][i].JObject? {
          assert entries[1..][i] == entries[i + 1];
        }
      }
      FirstMatchesTakesMine(entries[1..], userId, k');
      var more := Mine(entries[1..], userId);
      if Belongs(e, userId) {
        assert mine == [e] + more;
        var t := if k' < |more| then k' else |more|;
        assert mine[..t + 1] == [e] + more[..t];
      }
    }
  }

  /** The files the scan can reach: when the count is zero or less the first file already meets it. */
  function Searched(files: seq<seq<Option<Json>>>, count: int): seq<seq<Option<Json>>> {
    if count <= 0 then files[..if files == [] then 0 else 1] else files
  }

  /** How many entries the scan collects: when the count is zero or less it still keeps the first match. */
  function Wanted(count: int): nat {
    if count <= 0 then 1 else count
  }

  /** The entries the command lists for a requested count. */
  function Selection(files: seq<seq<Option<Json>>>, userId: int, count: int): Option<seq<Json>> {
    FirstMatches(Flat(Searched(files, count)), userId, Wanted(count))
  }

  lemma PrependEmpty(r: Option<seq<Json>>)
    ensures Prepend([], r) == r
  {
    if r.Some? {
      assert [] + r.value == r.value;
    }
  }

  /** The state of the scan: still collecting, stopped once the count is met, or crashed on an entry that is not an object. */
  datatype Scan = Scanning(found: seq<Json>) | Stopped(found: seq<Json>) | Crashed

  /** One line of a file, as the inner loop treats it. */
  function Feed(s: Scan, line: Option<Json>, userId: int, count: int): Scan {
    match s
    case Scanning(found) =>
      if line.None? then s
      else if !line.value.JObject? then Crashed
      else if !IsUser(Lookup(line.value.fields, "user_id"), userId) then s
      else if |found| + 1 >= count then Stopped(found + [line.value])
      else Scanning(found + [line.value])
    case _ => s
  }

  /** The inner loop over a file's lines, last line first. */
  function FeedLines(s: Scan, lines: seq<Option<Json>>, userId: int, count: int): Scan
    decreases |lines|
  {
    if lines == [] then s
    else FeedLines(Feed(s, lines[|lines| - 1], userId, count), lines[..|lines| - 1], userId, count)
  }

  /** The check after each file: enough entries stop the outer loop. */
  function AfterFile(s: Scan, count: int): Scan {
    if s.Scanning? && |s.found| >= count then Stopped(s.found) else s
  }

  /** The outer loop over the files, newest first. */
  function FeedFiles(s: Scan, files: seq<seq<Option<Json>>>, userId: int, count: int): Scan
    decreases |files|
  {
    if files == [] then s
    else FeedFiles(AfterFile(FeedLines(s, files[0], userId, count), count), files[1..], userId, count)
  }

  function Outcome(s: Scan): Option<seq<Json>> {
    if s.Crashed? then None else Some(s.found)
  }

  /** One turn of the inner loop: the line at `j - 1` is fed first. */
  lemma FeedLinesStep(s: Scan, lines: seq<Option<Json>>, j: nat, userId: int, count: int)
    requires 0 < j <= |lines|
    ensures FeedLines(s, lines[..j], userId, count)
      == FeedLines(Feed(s, lines[j - 1], userId, count), lines[..j - 1], userId, count)
  {
    assert lines[..j][..j - 1] == lines[..j - 1];
  }

  /** One turn of the outer loop: the file at `fi` is scanned whole, then checked. */
  lemma FeedFilesStep(s: Scan, files: seq<seq<Option<Json>>>, fi: nat, userId: int, count: int)
    requires fi < |files|
    ensures FeedFiles(s, files[fi..], userId, count)
      == FeedFiles(AfterFile(FeedLines(s, files[fi], userId, count), count), files[fi + 1..], userId, count)
  {
    assert files[fi..][0] == files[fi] && files[fi..][1..] == files[fi + 1..];
  }

  lemma {:induction false} LinesAfterStop(s: Scan, lines: seq<Option<Json>>, userId: int, count: int)
    requires !s.Scanning?
    ensures FeedLines(s, lines, userId, count) == s
    decreases |lines|
  {
    if lines != [] {
      LinesAfterStop(s, lines[..|lines| - 1], userId, count);
    }
  }

  lemma {:induction false} FilesAfterStop(s: Scan, files: seq<seq<Option<Json>>>, userId: int, count: int)
    requires !s.Scanning?
    ensures FeedFiles(s, files, userId, count) == s
    decreases |files|
  {
    if files != [] {
      LinesAfterStop(s, files[0], userId, count);
      FilesAfterStop(s, files[1..], userId, count);
    }
  }

  /** A collecting state never holds as many entries as are wanted. */
  predicate Fits(s: Scan, count: int) {
    s.Scanning? ==> |s.found| < Wanted(count)
  }

  /** What the scan yields from state `s` when `rest` is still to be scanned. */
  function Resume(s: Scan, rest: seq<Json>, userId: int, count: int): Option<seq<Json>>
    requires Fits(s, count)
  {
    match s
    case Crashed => None
    case Stopped(found) => Some(found)
    case Scanning(found) => Prepend(found, FirstMatches(rest, userId, Wanted(count) - |found|))
  }

  lemma FeedAgrees(s: Scan, line: Option<Json>, rest: seq<Json>, userId: int, count: int)
    requires Fits(s, count)
    ensures Fits(Feed(s, line, userId, count), count)
    ensures Resume(s, Decoded(line) + rest, userId, count) == Resume(Feed(s, line, userId, count), rest, userId, count)
  {
    if s.Scanning? {
      var found := s.found;
      var n := Wanted(count) - |found|;
      if line.None? {
        assert Decoded(line) + rest == rest;
      } else {
        var e := line.value;
        assert ([e] + rest)[0] == e && ([e] + rest)[1..] == rest;
        if e.JObject? && IsUser(Lookup(e.fields, "user_id"), userId) {
          var r := FirstMatches(rest, userId, n - 1);
          if |found| + 1 >= count {
            assert n == 1;
            assert found + ([e] + []) == found + [e];
          } else if r.Some? {
            assert found + ([e] + r.value) == found + [e] + r.value;
          }
        }
      }
    }
  }

  /** Scanning one file is scanning its entries, last line first. */
  lemma {:induction false} LinesAgree(s: Scan, lines: seq<Option<Json>>, tail: seq<Json>, userId: int, count: int)
    requires Fits(s, count)
    ensures Fits(FeedLines(s, lines, userId, count), count)
    ensures Resume(s, RevDecoded(lines) + tail, userId, count) == Resume(FeedLines(s, lines, userId, count), tail, userId, count)
    decreases |lines|
  {
    if lines == [] {
      assert RevDecoded(lines) + tail == tail;
    } else {
      var last := lines[|lines| - 1];
      var init := lines[..|lines| - 1];
      assert RevDecoded(lines) + tail == Decoded(last) + (RevDecoded(init) + tail);
      FeedAgrees(s, last, RevDecoded(init) + tail, userId, count);
      LinesAgree(Feed(s, last, userId, count), init, tail, userId, count);
    }
  }

  lemma ResumeAtEnd(s: Scan, userId: int, count: int)
    requires Fits(s, count)
    ensures Resume(s, [], userId, count) == Outcome(s)
  {
    if s.Scanning? {
      assert s.found + [] == s.found;
    }
  }

  /** With a positive count, scanning the files is scanning all their entries, newest first. */
  lemma {:induction false} FilesAgree(s: Scan, files: seq<seq<Option<Json>>>, userId: int, count: int)
    requires count > 0 && Fits(s, count)
    ensures Resume(s, Flat(files), userId, count) == Outcome(FeedFiles(s, files, userId, count))
    decreases |files|
  {
    if files == [] {
      ResumeAtEnd(s, userId, count);
    } else {
      LinesAgree(s, files[0], Flat(files[1..]), userId, count);
      FilesAgree(FeedLines(s, files[0], userId, count), files[1..], userId, count);
    }
  }

  /** The nested loops select exactly the first entries of the user that the count asks for, newest first. */
  lemma ScanSelects(files: seq<seq<Option<Json>>>, userId: int, count: int)
    ensures Outcome(FeedFiles(Scanning([]), files, userId, count)) == Selection(files, userId, count)
  {
    var start := Scanning([]);
    PrependEmpty(FirstMatches(Flat(Searched(files, count)), userId, Wanted(count)));
    if count > 0 {
      FilesAgree(start, files, userId, count);
    } else if files != [] {
      assert Flat(Searched(files, count)) == RevDecoded(files[0]) + [] by {
        assert Searched(files, count) == [files[0]];
        assert [files[0]][1..] == [];
      }
      LinesAgree(start, files[0], [], userId, count);
      var s1 := FeedLines(start, files[0], userId, count);
      ResumeAtEnd(s1, userId, count);
      FilesAfterStop(AfterFile(s1, count), files[1..], userId, count);
    }
  }

  /** The nested scan over files and their lines, newest first. */
  method SelectEntries(files: seq<seq<Option<Json>>>, userId: int, count: int) returns (entries: Option<seq<Json>>)
    ensures entries == Outcome(FeedFiles(Scanning([]), files, userId, count))
    ensures entries == Selection(files, userId, count)
  {
    ghost var whole := FeedFiles(Scanning([]), files, userId, count);
    ScanSelects(files, userId, count);
    var found: seq<Json> := [];
    ghost var state := Scanning(found);
    var fi := 0;
    assert files[0..] == files;
    while fi < |files|
      invariant 0 <= fi <= |files|
      invariant state == Scanning(found)
      invariant whole == FeedFiles(state, files[fi..], userId, count)
      decreases |files| - fi
    {
      var lines := files[fi];
      ghost var start := state;
      FeedFilesStep(state, files, fi, userId, count);
      assert lines[..|lines|] == lines;
      var j := |lines|;
      while j > 0
        invariant 0 <= j <= |lines|
        invariant state == Scanning(found)
        invariant FeedLines(start, lines, userId, count) == FeedLines(state, lines[..j], userId, count)
        decreases j
      {
        FeedLinesStep(state, lines, j, userId, count);
        j := j - 1;
        var line := lines[j];
        state := Feed(state, line, userId, count);
        if line.None? {
          continue;
        }
        var entry := line.value;
        if !entry.JObject? {
          LinesAfterStop(state, lines[..j], userId, count);
          FilesAfterStop(state, files[fi + 1..], userId, count);
          return None;
        }
        if IsUser(Lookup(entry.fields, "user_id"), userId) {
          found := found + [entry];
          if |found| >= count {
            LinesAfterStop(state, lines[..j], userId, count);
            break;
          }
        }
      }
      if state.Scanning? {
        assert lines[..j] == [];
      }
      state := AfterFile(state, count);
      if |found| >= count {
        FilesAfterStop(state, files[fi + 1..], userId, count);
        break;
      }
      fi := fi + 1;
    }
    if fi == |files| {
      assert files[fi..] == [];
    }
    return Some(found);
  }
}
