/** A batch of renames through one LSP session (scripts/rename-batch.ts, scripts/rename-lib.ts, and `open` and
    `resync` of scripts/lsp.ts): what the session remembers, what the server was told and what is on disk. */
module Renaming {
  import opened Utf16
  import opened Graph
  import opened Edits

  type Path = string

  /** A document notification: `didOpen` the first time, `didChange` with the whole text after. */
  datatype Push = Push(path: Path, version: nat, text: Text, opens: bool)

  /** The text the server holds for each document it was told of. */
  function Served(wire: seq<Push>): map<Path, Text> {
    if wire == [] then map[]
    else Served(wire[..|wire| - 1])[wire[|wire| - 1].path := wire[|wire| - 1].text]
  }

  /** A document is texts once, before it changes. */
  predicate Legal(wire: seq<Push>) {
    forall i | 0 <= i < |wire| :: wire[i].opens <==> wire[i].path !in Served(wire[..i])
  }

  /** Versions strictly increase, across all documents. */
  predicate Versioned(wire: seq<Push>, last: nat) {
    && (forall i | 0 <= i < |wire| :: wire[i].version <= last)
    && forall i, j | 0 <= i < j < |wire| :: wire[i].version < wire[j].version
  }

  lemma PushedAppends(wire: seq<Push>, last: nat, p: Push)
    requires Legal(wire) && Versioned(wire, last)
    requires p.version == last + 1 && (p.opens <==> p.path !in Served(wire))
    ensures Legal(wire + [p]) && Versioned(wire + [p], last + 1)
    ensures Served(wire + [p]) == Served(wire)[p.path := p.text]
  {
    var all := wire + [p];
    assert all[..|wire|] == wire;
    forall i | 0 <= i < |all| ensures all[i].opens <==> all[i].path !in Served(all[..i]) {
      assert i < |wire| ==> all[..i] == wire[..i] && all[i] == wire[i];
    }
  }

  // ---------- where a name stands ----------

  function Line(text: Text, line: nat): Text
    requires line < |LineStarts(text)|
  {
    OffsetStaysOnLine(text, Pos(line, 0));
    text[LineStarts(text)[line]..LineEnd(text, line)]
  }

  /** `name` stands at `p`. */
  predicate Spells(text: Text, p: Pos, name: Text) {
    p.line < |LineStarts(text)| && p.character + |name| <= |Line(text, p.line)|
      && Line(text, p.line)[p.character..p.character + |name|] == name
  }

  /** In terms of the whole text: the name is spelled from the position's offset on, all on its line. */
  lemma SpellsInText(text: Text, p: Pos, name: Text)
    requires p.line < |LineStarts(text)|
    ensures var o := LineStarts(text)[p.line] + p.character;
      Spells(text, p, name) <==> o + |name| <= LineEnd(text, p.line) <= |text| && text[o..o + |name|] == name
  {
    OffsetStaysOnLine(text, Pos(p.line, 0));
    hide LineStarts, LineEnd;
    if LineStarts(text)[p.line] + p.character + |name| <= LineEnd(text, p.line) {
      SliceOfSlice(text, LineStarts(text)[p.line], LineEnd(text, p.line), p.character, p.character + |name|);
    }
  }

  lemma SliceOfSlice(text: Text, from: nat, to: nat, i: nat, j: nat)
    requires from <= to <= |text| && i <= j <= to - from
    ensures text[from..to][i..j] == text[from + i..from + j]
  {
    var line := text[from..to];
    assert forall k | i <= k < j :: line[i..j][k - i] == line[k] == text[from + k];
  }

  /** A character `\w` matches. */
  predicate Word(u: Unit) {
    '0' as int <= u <= '9' as int || 'A' as int <= u <= 'Z' as int || u == '_' as int || 'a' as int <= u <= 'z' as int
  }

  /** `\b` before index `i`. */
  predicate Boundary(line: Text, i: nat)
    requires i <= |line|
  {
    (i > 0 && Word(line[i - 1])) != (i < |line| && Word(line[i]))
  }

  predicate WordAt(line: Text, i: nat, name: Text) {
    i + |name| <= |line| && line[i..i + |name|] == name && Boundary(line, i) && Boundary(line, i + |name|)
  }

  /** The whole-word matches of a line, left to right, each starting behind the one before. */
  function Matches(line: Text, name: Text, from: nat): (found: seq<nat>)
    requires name != []
    ensures forall i | i in found :: from <= i && WordAt(line, i, name)
    ensures forall i | i >= from && WordAt(line, i, name) :: i in found || exists f :: f in found && f < i < f + |name|
    decreases |line| - from
  {
    if from + |name| > |line| then []
    else if WordAt(line, from, name) then
      var rest := Matches(line, name, from + |name|);
      assert forall i | i > from && WordAt(line, i, name) && i !in rest ::
          exists f :: f in [from] + rest && f < i < f + |name| by {
        forall i | i > from && WordAt(line, i, name) && i !in rest
          ensures exists f :: f in [from] + rest && f < i < f + |name| {
          if i < from + |name| {
            assert from in [from] + rest;
          } else {
            var f :| f in rest && f < i < f + |name|;
            assert f in [from] + rest;
          }
        }
      }
      [from] + rest
    else Matches(line, name, from + 1)
  }

  /** Inside an identifier there is no word boundary. */
  lemma NoBoundaryInside(line: Text, name: Text, f: nat, i: nat)
    requires WordAt(line, f, name) && f < i < f + |name| && forall u | u in name :: Word(u)
    ensures !Boundary(line, i)
  {
    assert line[i] == line[f..f + |name|][i - f] && line[i - 1] == line[f..f + |name|][i - 1 - f];
    assert name[i - f] in name && name[i - 1 - f] in name;
  }

  /** So whole-word occurrences of an identifier never overlap, and none is passed over. */
  lemma EveryMatchFound(line: Text, name: Text, i: nat)
    requires name != [] && WordAt(line, i, name) && forall u | u in name :: Word(u)
    ensures i in Matches(line, name, 0)
  {
    if f :| f in Matches(line, name, 0) && f < i < f + |name| { NoBoundaryInside(line, name, f, i); }
  }

  /** `p` is a whole-word occurrence of the name. */
  predicate Occurs(text: Text, p: Pos, name: Text) {
    p.line < |LineStarts(text)| && WordAt(Line(text, p.line), p.character, name)
  }

  /** `p` is among the matches, or starts inside one that is. */
  predicate Offered(found: seq<Pos>, p: Pos, name: Text) {
    p in found || exists q :: q in found && q.line == p.line && q.character < p.character < q.character + |name|
  }

  /** By line, and along a line one behind the other. */
  predicate Ascending(found: seq<Pos>, name: Text) {
    forall i, j | 0 <= i < j < |found| :: Behind(found[i], found[j], name)
  }

  predicate Behind(p: Pos, q: Pos, name: Text) {
    p.line < q.line || (p.line == q.line && p.character + |name| <= q.character)
  }

  function MatchesFrom(text: Text, name: Text, line: nat): (found: seq<Pos>)
    requires name != []
    ensures forall p | p in found :: Spells(text, p, name) && Occurs(text, p, name) && p.line >= line
    ensures forall p | Occurs(text, p, name) && p.line >= line :: Offered(found, p, name)
    decreases |LineStarts(text)| - line
  {
    if line >= |LineStarts(text)| then []
    else
      var here, rest := Matches(Line(text, line), name, 0), MatchesFrom(text, name, line + 1);
      var found := seq(|here|, i requires 0 <= i < |here| => Pos(line, here[i])) + rest;
      LineIsOffered(text, name, line, here, rest, found);
      found
  }

  lemma LineIsOffered(text: Text, name: Text, line: nat, here: seq<nat>, rest: seq<Pos>, found: seq<Pos>)
    requires name != [] && line < |LineStarts(text)| && here == Matches(Line(text, line), name, 0)
    requires forall p | p in rest :: Spells(text, p, name) && Occurs(text, p, name) && p.line >= line + 1
    requires forall p | Occurs(text, p, name) && p.line >= line + 1 :: Offered(rest, p, name)
    requires found == seq(|here|, i requires 0 <= i < |here| => Pos(line, here[i])) + rest
    ensures forall p | p in found :: Spells(text, p, name) && Occurs(text, p, name) && p.line >= line
    ensures forall p | Occurs(text, p, name) && p.line >= line :: Offered(found, p, name)
  {
    assert forall i | 0 <= i < |here| :: here[i] in here && found[i] == Pos(line, here[i]);
    forall p | Occurs(text, p, name) && p.line >= line ensures Offered(found, p, name) {
      if p.line == line {
        if p.character in here {
          var i :| 0 <= i < |here| && here[i] == p.character;
          assert found[i] == p;
        } else {
          var f :| f in here && f < p.character < f + |name|;
          var i :| 0 <= i < |here| && here[i] == f;
          assert found[i] in found;
        }
      } else if p !in rest {
        var q :| q in rest && q.line == p.line && q.character < p.character < q.character + |name|;
        assert q in found;
      }
    }
  }

  lemma {:induction false} MatchesAscend(line: Text, name: Text, from: nat)
    requires name != []
    ensures forall i, j | 0 <= i < j < |Matches(line, name, from)| ::
      Matches(line, name, from)[i] + |name| <= Matches(line, name, from)[j]
    decreases |line| - from
  {
    hide WordAt;
    if from + |name| <= |line| {
      if WordAt(line, from, name) {
        MatchesAscend(line, name, from + |name|);
        var rest := Matches(line, name, from + |name|);
        assert forall j | 0 <= j < |rest| :: rest[j] in rest && from + |name| <= rest[j];
      } else {
        MatchesAscend(line, name, from + 1);
      }
    }
  }

  lemma {:induction false} MatchesFromAscend(text: Text, name: Text, line: nat)
    requires name != []
    ensures Ascending(MatchesFrom(text, name, line), name)
    decreases |LineStarts(text)| - line
  {
    if line < |LineStarts(text)| {
      MatchesFromAscend(text, name, line + 1);
      MatchesAscend(Line(text, line), name, 0);
      var here, rest := Matches(Line(text, line), name, 0), MatchesFrom(text, name, line + 1);
      hide Matches, Line, LineStarts, Occurs, Spells, Offered, Ascending;
      LineComesFirst(name, line, here, rest, MatchesFrom(text, name, line));
    }
  }

  lemma LineComesFirst(name: Text, line: nat, here: seq<nat>, rest: seq<Pos>, found: seq<Pos>)
    requires Ascending(rest, name) && (forall p | p in rest :: p.line >= line + 1)
    requires forall i, j | 0 <= i < j < |here| :: here[i] + |name| <= here[j]
    requires found == seq(|here|, i requires 0 <= i < |here| => Pos(line, here[i])) + rest
    ensures Ascending(found, name)
  {
    forall i, j | 0 <= i < j < |found| ensures Behind(found[i], found[j], name) {
      assert j >= |here| ==> found[j] == rest[j - |here|] && rest[j - |here|] in rest;
      assert i >= |here| ==> found[i] == rest[i - |here|];
    }
  }

  datatype Rename = Rename(file: Path, name: Text, newName: Text, at: Option<Pos>)

  /** What the server answers one rename: which positions it accepts, and the edits (`None` for an error). */
  datatype Answer = Answer(accepts: set<Pos>, edits: Option<seq<FileEdits>>)
  datatype FileEdits = FileEdits(path: Path, edits: seq<TextEdit>)

  /** What is offered to the server: the position the plan gives, if the name stands there, or else every whole-word
      occurrence (but those starting inside an offered one). */
  function Candidates(text: Text, spec: Rename): (found: seq<Pos>)
    requires spec.name != []
    ensures forall p | p in found :: Spells(text, p, spec.name)
    ensures spec.at.Some? ==> (spec.at.value in found <==> Spells(text, spec.at.value, spec.name)) && |found| <= 1
    ensures spec.at.None? ==> forall p | p in found :: Occurs(text, p, spec.name)
    ensures spec.at.None? ==> forall p | Occurs(text, p, spec.name) :: Offered(found, p, spec.name)
  {
    match spec.at
    case Some(p) => if Spells(text, p, spec.name) then [p] else []
    case None => MatchesFrom(text, spec.name, 0)
  }

  /** Candidates are offered by line and then by character. */
  lemma CandidatesAscend(text: Text, spec: Rename)
    requires spec.name != []
    ensures Ascending(Candidates(text, spec), spec.name)
  {
    if spec.at.None? { MatchesFromAscend(text, spec.name, 0); }
  }

  /** The first candidate the server accepts. */
  function FirstAccepted(found: seq<Pos>, accepts: set<Pos>): (p: Option<Pos>)
    ensures p.Some? ==> p.value in found && p.value in accepts
    ensures p.None? <==> forall x | x in found :: x !in accepts
  {
    if found == [] then None
    else if found[0] in accepts then Some(found[0])
    else FirstAccepted(found[1..], accepts)
  }

  /** Candidate `k` is accepted and none before it is. */
  ghost predicate FirstIn(found: seq<Pos>, accepts: set<Pos>, p: Pos, k: int) {
    0 <= k < |found| && found[k] == p && p in accepts && forall j | 0 <= j < k :: found[j] !in accepts
  }

  lemma {:induction false} FirstAcceptedIsFirst(found: seq<Pos>, accepts: set<Pos>)
    ensures FirstAccepted(found, accepts).Some? ==>
      exists k :: FirstIn(found, accepts, FirstAccepted(found, accepts).value, k)
  {
    if FirstAccepted(found, accepts).Some? {
      if found[0] in accepts {
        assert FirstIn(found, accepts, found[0], 0);
      } else {
        FirstAcceptedIsFirst(found[1..], accepts);
        if k :| FirstIn(found[1..], accepts, FirstAccepted(found[1..], accepts).value, k) {
          assert FirstIn(found, accepts, FirstAccepted(found, accepts).value, k + 1);
        }
      }
    }
  }

  function CountEdits(byFile: seq<FileEdits>): nat {
    if byFile == [] then 0 else CountEdits(byFile[..|byFile| - 1]) + |byFile[|byFile| - 1].edits|
  }

  /** No edits at all: every file's list is empty. */
  lemma {:induction false} NothingToEdit(byFile: seq<FileEdits>)
    ensures CountEdits(byFile) == 0 <==> forall f | f in byFile :: f.edits == []
  {
    if byFile != [] {
      var front, last := byFile[..|byFile| - 1], byFile[|byFile| - 1];
      NothingToEdit(front);
      assert last in byFile && forall f :: f in byFile <==> f in front || f == last;
    }
  }

  /** `computeRename` on the text of the file. */
  datatype Computed = Found(at: Pos, byFile: seq<FileEdits>) | Failed

  function Compute(text: Text, spec: Rename, answer: Answer): (c: Computed)
    requires spec.name != []
    ensures c.Found? ==> Spells(text, c.at, spec.name) && c.at in answer.accepts
  {
    match FirstAccepted(Candidates(text, spec), answer.accepts)
    case None => Failed
    case Some(p) =>
      if answer.edits.None? || CountEdits(answer.edits.value) == 0 then Failed else Found(p, answer.edits.value)
  }

  /** A rename goes where the first accepted candidate is, by line and then by character;
    it fails exactly when the server accepts none, or answers
      with no edits. */
  lemma ComputeTakesFirst(text: Text, spec: Rename, answer: Answer)
    requires spec.name != []
    ensures var c, found := Compute(text, spec, answer), Candidates(text, spec);
      && Ascending(found, spec.name)
      && (c.Found? ==> answer.edits == Some(c.byFile) && exists k :: FirstIn(found, answer.accepts, c.at, k))
      && (c.Failed? <==>
          || (forall p | p in found :: p !in answer.accepts)
          || answer.edits.None? || forall f | f in answer.edits.value :: f.edits == [])
  {
    if answer.edits.Some? { NothingToEdit(answer.edits.value); }
    CandidatesAscend(text, spec);
    FirstAcceptedIsFirst(Candidates(text, spec), answer.accepts);
  }

  // ---------- the batch, with every text read fresh from disk ----------

  datatype Options = Options(dry: bool, keepGoing: bool)

  /** Where a batch stands: between two renames, stopped at its first failure, or ended by a raise. */
  datatype Batch = Batch(files: map<Path, Text>, applied: nat, failed: nat, stopped: bool, raised: bool)

  /** `applyEdits`: file by file; a missing file or a refused edit list raises, and leaves what was written. */
  function Written(files: map<Path, Text>, byFile: seq<FileEdits>): (map<Path, Text>, bool) {
    if byFile == [] then (files, true)
    else
      var (files1, ok) := Written(files, byFile[..|byFile| - 1]);
      var f := byFile[|byFile| - 1];
      if !ok || f.path !in files1 then (files1, false)
      else
        match Applied(files1[f.path], f.edits)
        case Refuse(_) => (files1, false)
        case Done(text) => (files1[f.path := text], true)
  }

  /** The files of a rename are the keys of a map. */
  predicate DistinctPaths(byFile: seq<FileEdits>) {
    forall i, j | 0 <= i < j < |byFile| :: byFile[i].path != byFile[j].path
  }

  /** File `f` holds what its edits make of what it held before. */
  predicate Edited(files: map<Path, Text>, after: map<Path, Text>, f: FileEdits) {
    f.path in files && f.path in after && Applied(files[f.path], f.edits) == Done(after[f.path])
  }

  /** The first `k` entries are written, and every other file is as it was. */
  ghost predicate WrittenUpTo(files: map<Path, Text>, after: map<Path, Text>, byFile: seq<FileEdits>, k: nat) {
    && k <= |byFile| && after.Keys == files.Keys
    && (forall i | 0 <= i < k :: Edited(files, after, byFile[i]))
    && forall p | p in files && (forall i | 0 <= i < k :: byFile[i].path != p) :: after[p] == files[p]
  }

  /** An entry that cannot be written: the file is missing, or its edits do not fit it. */
  predicate Unwritable(files: map<Path, Text>, f: FileEdits) {
    f.path in files ==> Applied(files[f.path], f.edits).Refuse?
  }

  /** What a rename leaves on disk, entry by entry: all of them written, or those before the first that cannot be. */
  ghost predicate WritesUntil(files: map<Path, Text>, after: map<Path, Text>, byFile: seq<FileEdits>, ok: bool) {
    if ok then WrittenUpTo(files, after, byFile, |byFile|)
    else exists k: nat :: k < |byFile| && Unwritable(files, byFile[k]) && WrittenUpTo(files, after, byFile, k)
  }

  lemma {:induction false} WrittenMeaning(files: map<Path, Text>, byFile: seq<FileEdits>)
    requires DistinctPaths(byFile)
    ensures WritesUntil(files, Written(files, byFile).0, byFile, Written(files, byFile).1)
  {
    if byFile != [] {
      var n := |byFile| - 1;
      var front, f := byFile[..n], byFile[n];
      WrittenMeaning(files, front);
      var (files1, ok) := Written(files, front);
      if ok {
        FileUntouched(files, files1, byFile);
        WrittenSoFar(files, files1, byFile, n);
        if f.path in files1 && Applied(files1[f.path], f.edits).Done? {
          OneMoreWritten(files, files1, byFile, n);
        } else {
          assert Unwritable(files, f) && WrittenUpTo(files, files1, byFile, n);
        }
      } else {
        var k: nat :| k < n && Unwritable(files, front[k]) && WrittenUpTo(files, files1, front, k);
        WrittenSoFar(files, files1, byFile, k);
        assert Unwritable(files, byFile[k]) && WrittenUpTo(files, files1, byFile, k);
      }
    }
  }

  lemma WrittenSoFar(files: map<Path, Text>, after: map<Path, Text>, byFile: seq<FileEdits>, k: nat)
    requires byFile != [] && WrittenUpTo(files, after, byFile[..|byFile| - 1], k)
    ensures WrittenUpTo(files, after, byFile, k)
  {
    var front := byFile[..|byFile| - 1];
    assert forall i | 0 <= i < k :: front[i] == byFile[i];
  }

  lemma FileUntouched(files: map<Path, Text>, after: map<Path, Text>, byFile: seq<FileEdits>)
    requires byFile != [] && DistinctPaths(byFile)
    requires WrittenUpTo(files, after, byFile[..|byFile| - 1], |byFile| - 1)
    ensures after.Keys == files.Keys
    ensures var p := byFile[|byFile| - 1].path; p in files ==> after[p] == files[p]
  {
    var front := byFile[..|byFile| - 1];
    assert forall i | 0 <= i < |front| :: front[i] == byFile[i];
  }

  lemma OneMoreWritten(files: map<Path, Text>, files1: map<Path, Text>, byFile: seq<FileEdits>, n: nat)
    requires DistinctPaths(byFile) && n < |byFile| && WrittenUpTo(files, files1, byFile, n)
    requires byFile[n].path in files1 && byFile[n].path in files && files1[byFile[n].path] == files[byFile[n].path]
    requires Applied(files1[byFile[n].path], byFile[n].edits).Done?
    ensures var f := byFile[n];
      WrittenUpTo(files, files1[f.path := Applied(files1[f.path], f.edits).value], byFile, n + 1)
  {
    hide Applied;
    var f := byFile[n];
    var after := files1[f.path := Applied(files1[f.path], f.edits).value];
    forall i | 0 <= i < n + 1 ensures Edited(files, after, byFile[i]) {
      assert i < n ==> Edited(files, files1, byFile[i]);
    }
    forall p | p in files && (forall i | 0 <= i < n + 1 :: byFile[i].path != p) ensures after[p] == files[p] {
      assert byFile[n].path != p;
    }
  }

  function StepBatch(b: Batch, spec: Rename, answer: Answer, options: Options): Batch
    requires spec.name != []
  {
    if b.stopped || b.raised then b
    else if spec.file !in b.files then b.(raised := true)
    else
      match Compute(b.files[spec.file], spec, answer)
      case Failed => b.(failed := b.failed + 1, stopped := !options.keepGoing)
      case Found(_, byFile) =>
        if options.dry then b.(applied := b.applied + 1)
        else
          var (files, ok) := Written(b.files, byFile);
          if ok then b.(files := files, applied := b.applied + 1) else b.(files := files, raised := true)
  }

  /** Each rename computed against the files as the ones before it left them. */
  function RunFresh(files: map<Path, Text>, plan: seq<Rename>, answers: seq<Answer>, options: Options): Batch
    requires |plan| == |answers| && forall s | s in plan :: s.name != []
  {
    if plan == [] then Batch(files, 0, 0, false, false)
    else
      var n := |plan| - 1;
      StepBatch(RunFresh(files, plan[..n], answers[..n], options), plan[n], answers[n], options)
  }

  // ---------- the session ----------

  class Workspace {
    var files: map<Path, Text>
  }

  class Session {
    const disk: Workspace
    var texts: map<Path, Text>
    var version: nat
    var wire: seq<Push>

    /** The cache, the server's text and the file agree on every open document, but for the `stale` ones, whose
        files have been written since. Versions only ever increased. */
    ghost predicate CoherentBut(stale: set<Path>)
      reads this, disk
    {
      && texts == Served(wire) && Legal(wire) && Versioned(wire, version)
      && forall p | p in texts :: p in disk.files && (p !in stale ==> disk.files[p] == texts[p])
    }

    ghost predicate Coherent()
      reads this, disk
    {
      CoherentBut({})
    }

    constructor (disk: Workspace)
      ensures Coherent() && this.disk == disk && texts == map[]
    {
      this.disk, texts, version, wire := disk, map[], 1, [];
    }

    /** Read a file the server has not seen and tell it; a cached text is returned as it is. */
    method Open(rel: Path, ghost stale: set<Path>) returns (r: Option<Text>)
      requires CoherentBut(stale) && rel !in stale
      modifies this
      ensures CoherentBut(stale) && old(texts.Keys) <= texts.Keys
      ensures r == if rel in disk.files then Some(disk.files[rel]) else None
      ensures r.Some? ==> rel in texts
    {
      hide Served, Legal, Versioned;
      if rel in texts { return Some(texts[rel]); }
      if rel !in disk.files { return None; }
      var text := disk.files[rel];
      PushedAppends(wire, version, Push(rel, version + 1, text, true));
      version := version + 1;
      wire := wire + [Push(rel, version, text, true)];
      texts := texts[rel := text];
      r := Some(text);
    }

    /** Re-read a file and push it: the cache and the server move together. */
    method Resync(rel: Path, ghost stale: set<Path>) returns (r: Option<Text>)
      requires CoherentBut(stale)
      modifies this
      ensures CoherentBut(stale - {rel}) && old(texts.Keys) <= texts.Keys
      ensures r == if rel in disk.files then Some(disk.files[rel]) else None
    {
      hide Served, Legal, Versioned;
      if rel !in texts {
        assert CoherentBut(stale - {rel});
        r := Open(rel, stale - {rel});
        return;
      }
      if rel !in disk.files { return None; }
      var text := disk.files[rel];
      PushedAppends(wire, version, Push(rel, version + 1, text, false));
      version := version + 1;
      wire := wire + [Push(rel, version, text, false)];
      texts := texts[rel := text];
      r := Some(text);
    }
  }

  /** No file comes or goes, and those no entry names are as they were. */
  ghost predicate Spares(files: map<Path, Text>, after: map<Path, Text>, byFile: seq<FileEdits>) {
    && after.Keys == files.Keys
    && forall p | p in after && (forall f | f in byFile :: f.path != p) :: after[p] == files[p]
  }

  /** Write a rename's edits, file by file. */
  method ApplyEdits(disk: Workspace, byFile: seq<FileEdits>) returns (ok: bool)
    modifies disk
    ensures (disk.files, ok) == Written(old(disk.files), byFile)
    ensures Spares(old(disk.files), disk.files, byFile)
    ensures DistinctPaths(byFile) ==> WritesUntil(old(disk.files), disk.files, byFile, ok)
  {
    ghost var was := disk.files;
    if DistinctPaths(byFile) { WrittenMeaning(was, byFile); }
    WrittenSpares(was, byFile);
    NothingWritten(was, byFile);
    hide WritesUntil, DistinctPaths, Spares, Written, Applied, WrittenSo;
    for i := 0 to |byFile|
      invariant WrittenSo(was, byFile, i, disk.files)
    {
      var f := byFile[i];
      if f.path !in disk.files {
        WritingStops(was, byFile, i, disk.files);
        return false;
      }
      var text := ApplyToText(disk.files[f.path], f.edits);
      if text.Refuse? {
        WritingStops(was, byFile, i, disk.files);
        return false;
      }
      WritingGoesOn(was, byFile, i, disk.files);
      disk.files := disk.files[f.path := text.value];
    }
    AllWritten(was, byFile, disk.files);
    ok := true;
  }

  /** The first `i` entries are written and have left these files. */
  predicate WrittenSo(files: map<Path, Text>, byFile: seq<FileEdits>, i: nat, now: map<Path, Text>) {
    i <= |byFile| && Written(files, byFile[..i]) == (now, true)
  }

  lemma NothingWritten(files: map<Path, Text>, byFile: seq<FileEdits>)
    ensures WrittenSo(files, byFile, 0, files)
  {
  }

  lemma AllWritten(files: map<Path, Text>, byFile: seq<FileEdits>, now: map<Path, Text>)
    requires WrittenSo(files, byFile, |byFile|, now)
    ensures Written(files, byFile) == (now, true)
  {
    assert byFile[..|byFile|] == byFile;
  }

  lemma WritingGoesOn(files: map<Path, Text>, byFile: seq<FileEdits>, i: nat, now: map<Path, Text>)
    requires WrittenSo(files, byFile, i, now) && i < |byFile| && byFile[i].path in now
    requires Applied(now[byFile[i].path], byFile[i].edits).Done?
    ensures var text := Applied(now[byFile[i].path], byFile[i].edits).value;
      WrittenSo(files, byFile, i + 1, now[byFile[i].path := text])
  {
    assert byFile[..i + 1][..i] == byFile[..i];
  }

  lemma WritingStops(files: map<Path, Text>, byFile: seq<FileEdits>, i: nat, now: map<Path, Text>)
    requires WrittenSo(files, byFile, i, now) && i < |byFile| && Unwritable(now, byFile[i])
    ensures Written(files, byFile) == (now, false)
  {
    assert byFile[..i + 1][..i] == byFile[..i];
    RaiseStays(files, byFile, i + 1);
  }

  lemma {:induction false} RaiseStays(files: map<Path, Text>, byFile: seq<FileEdits>, i: nat)
    requires i <= |byFile| && !Written(files, byFile[..i]).1
    ensures Written(files, byFile) == Written(files, byFile[..i])
    decreases |byFile|
  {
    if i == |byFile| {
      assert byFile[..i] == byFile;
    } else {
      assert byFile[..|byFile| - 1][..i] == byFile[..i];
      RaiseStays(files, byFile[..|byFile| - 1], i);
    }
  }

  /** Files no entry names are left alone. */
  lemma {:induction false} WrittenSpares(files: map<Path, Text>, byFile: seq<FileEdits>)
    ensures Spares(files, Written(files, byFile).0, byFile)
  {
    if byFile != [] {
      var front, f := byFile[..|byFile| - 1], byFile[|byFile| - 1];
      WrittenSpares(files, front);
      hide Applied;
      assert f in byFile && forall g | g in front :: g in byFile;
    }
  }

  function Paths(byFile: seq<FileEdits>): set<Path> { set f | f in byFile :: f.path }

  /** Compute one rename against what the session says the file holds; `None` when the file is missing. */
  method ComputeRename(session: Session, spec: Rename, answer: Answer, resync: bool) returns (c: Option<Computed>)
    requires session.Coherent() && spec.name != []
    modifies session
    ensures session.Coherent()
    ensures c == if spec.file in session.disk.files then Some(Compute(session.disk.files[spec.file], spec, answer))
      else None
  {
    hide Compute, Served, Legal, Versioned;
    var text;
    if resync {
      text := session.Resync(spec.file, {});
    } else {
      text := session.Open(spec.file, {});
    }
    c := match text case None => None case Some(t) => Some(Compute(t, spec, answer));
  }

  /** Push every file a rename wrote, so that cache and server move together. */
  method ResyncAll(session: Session, byFile: seq<FileEdits>)
    requires session.CoherentBut(Paths(byFile))
    modifies session
    ensures session.Coherent()
  {
    hide Served, Legal, Versioned;
    for i := 0 to |byFile|
      invariant session.CoherentBut(Paths(byFile[i..]))
    {
      assert byFile[i..] == [byFile[i]] + byFile[i + 1..];
      var _ := session.Resync(byFile[i].path, Paths(byFile[i..]));
      assert Paths(byFile[i..]) - {byFile[i].path} <= Paths(byFile[i + 1..]);
    }
  }

  /** BATCH COHERENCE. At the start of every rename the session's text, the server's text and the file agree on
      every open document, so the whole batch does what renaming one by one against freshly read files does, and
      stops, or goes on, at the same rename. */
  method RenameBatch(session: Session, plan: seq<Rename>, answers: seq<Answer>, options: Options) returns (b: Batch)
    requires |plan| == |answers| && (forall s | s in plan :: s.name != []) && session.Coherent()
    modifies session, session.disk
    ensures b == RunFresh(old(session.disk.files), plan, answers, options) && session.disk.files == b.files
    ensures !b.raised ==> session.Coherent()
    ensures options.dry ==> session.disk.files == old(session.disk.files)
  {
    ghost var files := session.disk.files;
    hide Served, Legal, Versioned, StepBatch;
    b := Batch(session.disk.files, 0, 0, false, false);
    var touched: set<Path> := {};
    for i := 0 to |plan|
      invariant session.Coherent()
      invariant b == RunFresh(files, plan[..i], answers[..i], options) && session.disk.files == b.files
      invariant !b.stopped && !b.raised && (options.dry ==> b.files == files)
    {
      RunOneMore(files, plan, answers, options, i);
      StopsHere(files, plan, answers, options, i + 1);
      b, touched := RenameOne(session, b, plan[i], answers[i], options, touched);
      if b.stopped || b.raised { return; }
    }
    assert plan[..|plan|] == plan && answers[..|plan|] == answers;
  }

  /** One rename of a batch: compute it on the current text, write it unless this is a dry run, and push what it
      wrote. */
  method RenameOne(session: Session, b: Batch, spec: Rename, answer: Answer, options: Options, touched: set<Path>)
    returns (after: Batch, now: set<Path>)
    requires session.Coherent() && spec.name != [] && session.disk.files == b.files && !b.stopped && !b.raised
    modifies session, session.disk
    ensures after == StepBatch(b, spec, answer, options) && session.disk.files == after.files
    ensures !after.raised ==> session.Coherent()
    ensures options.dry ==> after.files == b.files
  {
    hide Served, Legal, Versioned, Compute, Written, WritesUntil, DistinctPaths;
    now := touched;
    var c := ComputeRename(session, spec, answer, spec.file in touched);
    match c {
      case None =>
        after := b.(raised := true);
      case Some(Failed) =>
        after := b.(failed := b.failed + 1, stopped := !options.keepGoing);
      case Some(Found(_, byFile)) =>
        if options.dry { return b.(applied := b.applied + 1), touched; }
        var ok := ApplyEdits(session.disk, byFile);
        if !ok { return b.(files := session.disk.files, raised := true), touched; }
        now := touched + Paths(byFile);
        ResyncAll(session, byFile);
        after := b.(files := session.disk.files, applied := b.applied + 1);
    }
  }

  lemma RunOneMore(files: map<Path, Text>, plan: seq<Rename>, answers: seq<Answer>, options: Options, i: nat)
    requires |plan| == |answers| && (forall s | s in plan :: s.name != []) && i < |plan|
    ensures plan[i] in plan
    ensures RunFresh(files, plan[..i + 1], answers[..i + 1], options)
      == StepBatch(RunFresh(files, plan[..i], answers[..i], options), plan[i], answers[i], options)
  {
    hide Compute, Written;
    assert plan[..i + 1][..i] == plan[..i] && answers[..i + 1][..i] == answers[..i];
  }

  lemma {:induction false} StopsHere(files: map<Path, Text>, plan: seq<Rename>, answers: seq<Answer>, options: Options,
      i: nat)
    requires |plan| == |answers| && (forall s | s in plan :: s.name != []) && i <= |plan|
    ensures var b := RunFresh(files, plan[..i], answers[..i], options);
      b.stopped || b.raised ==> RunFresh(files, plan, answers, options) == b
    decreases |plan|
  {
    hide Compute, Written;
    if i == |plan| {
      assert plan[..i] == plan && answers[..i] == answers;
    } else {
      var n := |plan| - 1;
      assert plan[n] in plan && forall s | s in plan[..n] :: s in plan;
      assert plan[..n][..i] == plan[..i] && answers[..n][..i] == answers[..i];
      StopsHere(files, plan[..n], answers[..n], options, i);
    }
  }

  // ---------- where a batch stops ----------

  /** A batch that ran to its end tried every rename; without keep-going none of them failed. */
  lemma {:induction false} CountsAddUp(files: map<Path, Text>, plan: seq<Rename>, answers: seq<Answer>,
      options: Options)
    requires |plan| == |answers| && forall s | s in plan :: s.name != []
    ensures var b := RunFresh(files, plan, answers, options);
      && (!b.stopped && !b.raised ==> b.applied + b.failed == |plan| && (!options.keepGoing ==> b.failed == 0))
      && (options.keepGoing ==> !b.stopped)
  {
    hide Compute, Written;
    if plan != [] {
      var n := |plan| - 1;
      CountsAddUp(files, plan[..n], answers[..n], options);
    }
  }

  /** A stopped batch stopped at its first failure: the renames before it are all applied, and nothing else is on
      disk, so the plan from there on is the resume point. */
  lemma {:induction false} StoppedAtFirstFailure(files: map<Path, Text>, plan: seq<Rename>, answers: seq<Answer>,
      options: Options)
    requires |plan| == |answers| && forall s | s in plan :: s.name != []
    requires RunFresh(files, plan, answers, options).stopped
    ensures var b := RunFresh(files, plan, answers, options);
      && b.failed == 1 && b.applied < |plan|
      && var i := b.applied;
         var before := RunFresh(files, plan[..i], answers[..i], options);
         && before == Batch(b.files, i, 0, false, false)
         && plan[i].file in b.files && Compute(b.files[plan[i].file], plan[i], answers[i]).Failed?
  {
    hide Compute, Written;
    var n := |plan| - 1;
    var b := RunFresh(files, plan[..n], answers[..n], options);
    assert plan[n] in plan && forall s | s in plan[..n] :: s in plan;
    CountsAddUp(files, plan[..n], answers[..n], options);
    if b.stopped {
      StoppedAtFirstFailure(files, plan[..n], answers[..n], options);
      assert plan[..n][..b.applied] == plan[..b.applied] && answers[..n][..b.applied] == answers[..b.applied];
    } else {
      assert !b.raised && !options.keepGoing && b == Batch(b.files, n, 0, false, false);
    }
  }

  // ---------- what a batch writes ----------

  /** What rename `i` does to the files the renames before it left. */
  ghost predicate RenameWrites(files: map<Path, Text>, after: map<Path, Text>, spec: Rename, answer: Answer, dry: bool)
    requires spec.name != []
  {
    if spec.file !in files then after == files
    else
      match Compute(files[spec.file], spec, answer)
      case Failed => after == files
      case Found(_, byFile) => if dry then after == files else exists ok :: WritesUntil(files, after, byFile, ok)
  }

  /** A batch changes the files rename by rename: one that is applied writes every file its answer names, with the
      edits made, and no other; one that raises writes those before the entry that cannot be written; any other
      leaves them alone. */
  lemma EachRenameWrites(files: map<Path, Text>, plan: seq<Rename>, answers: seq<Answer>, options: Options, i: nat)
    requires |plan| == |answers| && (forall s | s in plan :: s.name != []) && i < |plan|
    requires answers[i].edits.Some? ==> DistinctPaths(answers[i].edits.value)
    ensures var b := RunFresh(files, plan[..i], answers[..i], options);
      var b' := RunFresh(files, plan[..i + 1], answers[..i + 1], options);
      if b.stopped || b.raised then b' == b
      else
        && RenameWrites(b.files, b'.files, plan[i], answers[i], options.dry)
        && (b'.applied > b.applied && !options.dry ==>
            answers[i].edits.Some? && WritesUntil(b.files, b'.files, answers[i].edits.value, true))
        && (b'.raised ==>
            || plan[i].file !in b.files
            || (answers[i].edits.Some? && !options.dry
               && WritesUntil(b.files, b'.files, answers[i].edits.value, false)))
        && (b'.failed > b.failed ==>
            plan[i].file in b.files && Compute(b.files[plan[i].file], plan[i], answers[i]).Failed?)
        && b'.applied + b'.failed + (if b'.raised then 1 else 0) == b.applied + b.failed + 1
  {
    assert plan[..i + 1][..i] == plan[..i] && answers[..i + 1][..i] == answers[..i] && plan[i] in plan;
    var b := RunFresh(files, plan[..i], answers[..i], options);
    hide RunFresh, WritesUntil, Written, DistinctPaths, Candidates, FirstAccepted, CountEdits;
    if answers[i].edits.Some? { WrittenMeaning(b.files, answers[i].edits.value); }
  }
}
