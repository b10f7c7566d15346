/** Findings carried through an incremental diff: src/queue/lifecycle/carry-forward.ts. */
module CarryForward {
  import opened Seqs
  import opened DiffParser
  import opened LineMapping

  datatype CarryFile = CarryFile(
    path: string,
    previousPath: Option<string>,
    status: FileStatus,
    patch: Option<string>)

  datatype Place = Place(filePath: string, lineStart: int, lineEnd: int)

  datatype Carried<T> = Carried(finding: T, place: Place)

  /** The old path a changed file claims (an empty previous path does not count). */
  function OldPath(file: CarryFile): string {
    if file.status == Renamed && file.previousPath.Some? && file.previousPath.value != ""
    then file.previousPath.value
    else file.path
  }

  /** Who claims each old path; the last file wins. */
  function Claims(files: seq<CarryFile>): map<string, CarryFile> {
    if files == [] then map[]
    else Claims(files[..|files| - 1])[OldPath(files[|files| - 1]) := files[|files| - 1]]
  }

  /** Where a place ends up; None when what it points at is gone. */
  function CarryPlace(place: Place, claims: map<string, CarryFile>): Option<Place> {
    if place.filePath !in claims then Some(place)
    else
      var file := claims[place.filePath];
      if file.status == Removed then None
      else if file.patch.None? then Some(place.(filePath := file.path))
      else
        var mapped :- MapRange(Parse(file.patch.value), place.lineStart, place.lineEnd);
        Some(Place(file.path, mapped.0, mapped.1))
  }

  function CarryWith(claims: map<string, CarryFile>): Place -> Option<Place> {
    place => CarryPlace(place, claims)
  }

  /** The findings `carry` keeps, in order, where it puts them. */
  function PersistedOf<T>(findings: seq<T>, placeOf: T -> Place, carry: Place -> Option<Place>): seq<Carried<T>> {
    if findings == [] then []
    else
      var last := findings[|findings| - 1];
      var place := carry(placeOf(last));
      PersistedOf(findings[..|findings| - 1], placeOf, carry) + if place.Some? then [Carried(last, place.value)] else []
  }

  predicate Stays<T>(finding: T, placeOf: T -> Place, carry: Place -> Option<Place>) {
    carry(placeOf(finding)).Some?
  }

  function Staying<T>(placeOf: T -> Place, carry: Place -> Option<Place>): T -> bool {
    finding => Stays(finding, placeOf, carry)
  }

  function Closing<T>(placeOf: T -> Place, carry: Place -> Option<Place>): T -> bool {
    finding => !Stays(finding, placeOf, carry)
  }

  /** The findings `carry` closes, in order. */
  function ResolvedOf<T(!new)>(findings: seq<T>, placeOf: T -> Place, carry: Place -> Option<Place>): seq<T> {
    Filter(findings, Closing(placeOf, carry))
  }

  method CarryAll<T(!new)>(findings: seq<T>, placeOf: T -> Place, files: seq<CarryFile>)
    returns (persisted: seq<Carried<T>>, resolved: seq<T>)
    ensures persisted == PersistedOf(findings, placeOf, CarryWith(Claims(files)))
    ensures resolved == ResolvedOf(findings, placeOf, CarryWith(Claims(files)))
  {
    var byOldPath: map<string, CarryFile> := map[];
    for i := 0 to |files|
      invariant byOldPath == Claims(files[..i])
    {
      var file := files[i];
      var key := if file.status == Renamed && file.previousPath.Some? && file.previousPath.value != ""
                 then file.previousPath.value else file.path;
      assert files[..i + 1][..i] == files[..i];
      byOldPath := byOldPath[key := file];
    }
    assert files[..|files|] == files;

    persisted, resolved := [], [];
    for i := 0 to |findings|
      invariant persisted == PersistedOf(findings[..i], placeOf, CarryWith(Claims(files)))
      invariant resolved == ResolvedOf(findings[..i], placeOf, CarryWith(Claims(files)))
    {
      var finding := findings[i];
      var place := placeOf(finding);
      assert findings[..i + 1][..i] == findings[..i];
      if place.filePath !in byOldPath {
        persisted := persisted + [Carried(finding, place)];
        continue;
      }
      var file := byOldPath[place.filePath];
      if file.status == Removed {
        resolved := resolved + [finding];
        continue;
      }
      if file.patch.None? {
        persisted := persisted + [Carried(finding, place.(filePath := file.path))];
        continue;
      }
      var hunks := ParsePatch(file.patch.value);
      var mapped := MapLineThroughHunks(hunks, place.lineStart, place.lineEnd);
      if mapped.None? {
        resolved := resolved + [finding];
        continue;
      }
      persisted := persisted + [Carried(finding, Place(file.path, mapped.value.0, mapped.value.1))];
    }
    assert findings[..|findings|] == findings;
  }

  /** The kept findings are those that stay, in order. */
  lemma {:induction false} PersistedAreStaying<T(!new)>(findings: seq<T>, placeOf: T -> Place, carry: Place -> Option<Place>)
    ensures FindingsOf(PersistedOf(findings, placeOf, carry)) == Filter(findings, Staying(placeOf, carry))
  {
    if findings != [] {
      PersistedAreStaying(findings[..|findings| - 1], placeOf, carry);
      var last := findings[|findings| - 1];
      if carry(placeOf(last)).Some? {
        FindingsOfSnoc(PersistedOf(findings[..|findings| - 1], placeOf, carry), Carried(last, carry(placeOf(last)).value));
      }
    }
  }

  /** Every finding is either persisted or resolved, none twice. */
  lemma CarryPartitions<T(!new)>(findings: seq<T>, placeOf: T -> Place, carry: Place -> Option<Place>)
    ensures multiset(findings)
         == multiset(FindingsOf(PersistedOf(findings, placeOf, carry))) + multiset(ResolvedOf(findings, placeOf, carry))
  {
    PersistedAreStaying(findings, placeOf, carry);
    FilterSplits(findings, Staying(placeOf, carry), Closing(placeOf, carry));
  }

  lemma FindingsOfSnoc<T>(carried: seq<Carried<T>>, c: Carried<T>)
    ensures FindingsOf(carried + [c]) == FindingsOf(carried) + [c.finding]
  {
  }

  function FindingsOf<T>(carried: seq<Carried<T>>): (r: seq<T>)
    ensures |r| == |carried|
    ensures forall i :: 0 <= i < |r| ==> r[i] == carried[i].finding
  {
    seq(|carried|, i requires 0 <= i < |carried| => carried[i].finding)
  }

  // ----- what a push does to the files -----

  /** Path to lines, at one commit. */
  type Tree = map<string, seq<string>>

  /** `patch` is the diff from `before` to `after`, with or without a newline at its end. */
  ghost predicate PatchedBy(before: seq<string>, patch: string, after: seq<string>, hunks: seq<DiffHunk>) {
    && Fits(before, hunks)
    && Apply(before, hunks) == after
    && (Parse(patch) == hunks || Parse(patch) == WithPhantom(hunks))
  }

  ghost predicate IsDiff(before: seq<string>, patch: string, after: seq<string>) {
    exists hunks :: PatchedBy(before, patch, after, hunks)
  }

  /** `file` says what became of the old file p. */
  predicate Describes(file: CarryFile, p: string) {
    file.status != Added && OldPath(file) == p
  }

  /** The entry is true. Its patch, when it has one, is the diff; a binary or oversized file has none. */
  ghost predicate FileOk(before: Tree, file: CarryFile, after: Tree) {
    match file.status
    case Removed => file.path in before
    case Added =>
      file.path in after && (file.patch.Some? ==> IsDiff([], file.patch.value, after[file.path]))
    case _ =>
      OldPath(file) in before && file.path in after &&
      (file.patch.Some? ==> IsDiff(before[OldPath(file)], file.patch.value, after[file.path]))
  }

  /** `files` is a true and complete account of the push: each old file is described at most once, and
      each new path given at most once; a path is added over an old file only when that file is
      described too; the rest is unchanged. */
  ghost predicate IsPush(before: Tree, files: seq<CarryFile>, after: Tree) {
    && (forall f :: f in files ==> FileOk(before, f, after))
    && (forall i, j :: 0 <= i < j < |files| && files[i].status != Added && files[j].status != Added ==>
          OldPath(files[i]) != OldPath(files[j]))
    && (forall i, j :: 0 <= i < j < |files| && files[i].status != Removed && files[j].status != Removed ==>
          files[i].path != files[j].path)
    && (forall f :: f in files && f.status == Added && f.path in before ==> exists g :: g in files && Describes(g, f.path))
    && (forall p :: p in before && (forall f :: f in files ==> !Describes(f, p)) ==> p in after && after[p] == before[p])
  }

  ghost predicate InTree(tree: Tree, place: Place) {
    place.filePath in tree && 1 <= place.lineStart <= place.lineEnd <= |tree[place.filePath]|
  }

  /** `at` gives, for each line of `place`, its line inside `place'`: in order, text unchanged, ends to ends. */
  ghost predicate TracksAt(before: Tree, place: Place, after: Tree, place': Place, at: seq<int>) {
    && InTree(before, place) && InTree(after, place')
    && |at| == place.lineEnd - place.lineStart + 1
    && (forall i :: 0 <= i < |at| ==>
          && place'.lineStart <= at[i] <= place'.lineEnd
          && after[place'.filePath][at[i] - 1] == before[place.filePath][place.lineStart + i - 1])
    && (forall i, j :: 0 <= i < j < |at| ==> at[i] < at[j])
    && at[0] == place'.lineStart && at[|at| - 1] == place'.lineEnd
  }

  ghost predicate Tracks(before: Tree, place: Place, after: Tree, place': Place) {
    exists at :: TracksAt(before, place, after, place', at)
  }

  /** The file of `place` was removed, or a line in its range deleted or replaced. */
  ghost predicate Lost(before: Tree, files: seq<CarryFile>, after: Tree, place: Place) {
    exists f :: f in files && LostBy(before, f, after, place)
  }

  ghost predicate LostBy(before: Tree, f: CarryFile, after: Tree, place: Place) {
    && Describes(f, place.filePath)
    && (f.status == Removed ||
        (f.path in after && place.filePath in before && f.patch.Some? &&
         RangeDeleted(before[place.filePath], f.patch.value, after[f.path], place.lineStart, place.lineEnd)))
  }

  /** The path of the old file p after the push. */
  ghost predicate MovesTo(files: seq<CarryFile>, p: string, q: string) {
    if exists f :: f in files && Describes(f, p) then exists f :: f in files && Describes(f, p) && f.path == q
    else q == p
  }

  /** What carrying promises: closed exactly when lost, otherwise its lines followed under the new path. */
  ghost predicate Faithful(before: Tree, files: seq<CarryFile>, after: Tree, place: Place, r: Option<Place>) {
    && (r.None? <==> Lost(before, files, after, place))
    && (r.Some? ==> Tracks(before, place, after, r.value) && MovesTo(files, place.filePath, r.value.filePath))
  }

  /** A file added under p comes last among the files that claim p. */
  predicate AddedWins(files: seq<CarryFile>, p: string) {
    p in Claims(files) && Claims(files)[p].status == Added
  }

  lemma {:induction false} ClaimsHasLast(files: seq<CarryFile>, p: string)
    ensures p in Claims(files) <==> exists f :: f in files && OldPath(f) == p
    ensures p in Claims(files) ==> Claims(files)[p] in files && OldPath(Claims(files)[p]) == p
  {
    if files != [] {
      ClaimsHasLast(files[..|files| - 1], p);
      assert files == files[..|files| - 1] + [files[|files| - 1]];
    }
  }

  /** The lines of a surviving range, followed through one patch. */
  lemma PatchTracks(file: seq<string>, hunks: seq<DiffHunk>, s: nat, e: nat) returns (at: seq<int>)
    requires Fits(file, hunks) && 1 <= s <= e <= |file|
    requires MapRange(hunks, s, e).Some?
    ensures |at| == e - s + 1
    ensures forall i :: 0 <= i < |at| ==>
              && MapRange(hunks, s, e).value.0 <= at[i] <= MapRange(hunks, s, e).value.1
              && 1 <= at[i] <= |Apply(file, hunks)|
              && Apply(file, hunks)[at[i] - 1] == file[s + i - 1]
    ensures forall i, j :: 0 <= i < j < |at| ==> at[i] < at[j]
    ensures at[0] == MapRange(hunks, s, e).value.0 && at[|at| - 1] == MapRange(hunks, s, e).value.1
  {
    RangeGoesThrough(file, hunks, s, e);
    at := LinesOf(hunks, s, e);
    forall i | 0 <= i < |at|
      ensures 1 <= at[i] <= |Apply(file, hunks)| && Apply(file, hunks)[at[i] - 1] == file[s + i - 1]
    {
      MappingRefinesApply(file, hunks, s + i);
    }
    LinesIncrease(file, hunks, s, e);
  }

  function LinesOf(hunks: seq<DiffHunk>, s: int, e: int): (r: seq<int>)
    requires s <= e && Survives(hunks, s, e)
    ensures |r| == e - s + 1 && forall i :: 0 <= i < |r| ==> r[i] == Map(hunks, s + i).value
  {
    seq(e - s + 1, i requires 0 <= i < e - s + 1 => Map(hunks, s + i).value)
  }

  lemma LinesIncrease(file: seq<string>, hunks: seq<DiffHunk>, s: nat, e: nat)
    requires Fits(file, hunks) && 1 <= s <= e <= |file| && Survives(hunks, s, e)
    ensures forall i, j :: 0 <= i < j <= e - s ==> LinesOf(hunks, s, e)[i] < LinesOf(hunks, s, e)[j]
  {
    forall i, j | 0 <= i < j <= e - s
      ensures LinesOf(hunks, s, e)[i] < LinesOf(hunks, s, e)[j]
    {
      MappingIncreases(file, hunks, s + i, s + j);
    }
  }

  /** With a header-consistent patch the text and the hunks map ranges alike. */
  lemma SameRange(before: seq<string>, patch: string, after: seq<string>, hunks: seq<DiffHunk>, s: int, e: int)
    requires PatchedBy(before, patch, after, hunks)
    ensures MapRange(Parse(patch), s, e) == MapRange(hunks, s, e)
  {
    FitsCounts(before, hunks, 0, 0);
    forall l: int
      ensures Map(Parse(patch), l) == Map(hunks, l)
    {
      PhantomIsHarmless(hunks, l);
    }
    assert Survives(Parse(patch), s, e) <==> Survives(hunks, s, e);
  }

  lemma OnlyOneDescribes(before: Tree, files: seq<CarryFile>, after: Tree, f: CarryFile, g: CarryFile, p: string)
    requires IsPush(before, files, after)
    requires f in files && g in files && Describes(f, p) && Describes(g, p)
    ensures f == g
  {
    var i :| 0 <= i < |files| && files[i] == f;
    var j :| 0 <= j < |files| && files[j] == g;
  }

  lemma LostIsLostBy(before: Tree, files: seq<CarryFile>, after: Tree, place: Place, f: CarryFile)
    requires IsPush(before, files, after)
    requires f in files && Describes(f, place.filePath)
    ensures Lost(before, files, after, place) <==> LostBy(before, f, after, place)
  {
    if Lost(before, files, after, place) {
      var g :| g in files && LostBy(before, g, after, place);
      OnlyOneDescribes(before, files, after, f, g, place.filePath);
    }
  }

  ghost predicate RangeDeleted(before: seq<string>, patch: string, after: seq<string>, s: int, e: int) {
    exists hunks, l: int :: PatchedBy(before, patch, after, hunks) && s <= l <= e && Deletes(hunks, l)
  }

  /** A range goes through a patch text exactly when no line of it is deleted. */
  lemma RangeLostMeansDeleted(before: seq<string>, patch: string, after: seq<string>, hunks: seq<DiffHunk>, s: nat, e: nat)
    requires PatchedBy(before, patch, after, hunks) && 1 <= s <= e <= |before|
    ensures MapRange(hunks, s, e).None? <==> RangeDeleted(before, patch, after, s, e)
  {
    RangeGoesThrough(before, hunks, s, e);
    if MapRange(hunks, s, e).None? {
      var l: int :| s <= l <= e && Deletes(hunks, l);
    } else if RangeDeleted(before, patch, after, s, e) {
      var hs, l: int :| PatchedBy(before, patch, after, hs) && s <= l <= e && Deletes(hs, l);
      SameRange(before, patch, after, hs, s, e);
      SameRange(before, patch, after, hunks, s, e);
      RangeGoesThrough(before, hs, s, e);
    }
  }

  /** Carrying through a patched file is mapping the range through its hunks. */
  lemma CarryPatched(place: Place, f: CarryFile, before: seq<string>, after: seq<string>, hunks: seq<DiffHunk>)
    requires f.status != Removed && f.patch.Some?
    requires PatchedBy(before, f.patch.value, after, hunks)
    ensures CarryPlace(place, map[place.filePath := f])
         == ThroughHunks(f.path, MapRange(hunks, place.lineStart, place.lineEnd))
  {
    SameRange(before, f.patch.value, after, hunks, place.lineStart, place.lineEnd);
  }

  function ThroughHunks(path: string, mapped: Option<(int, int)>): Option<Place> {
    if mapped.None? then None else Some(Place(path, mapped.value.0, mapped.value.1))
  }

  lemma RangeTracks(before: Tree, after: Tree, place: Place, path: string, hunks: seq<DiffHunk>)
    requires InTree(before, place) && path in after
    requires Fits(before[place.filePath], hunks) && Apply(before[place.filePath], hunks) == after[path]
    requires MapRange(hunks, place.lineStart, place.lineEnd).Some?
    ensures Tracks(before, place, after, ThroughHunks(path, MapRange(hunks, place.lineStart, place.lineEnd)).value)
  {
    var file := before[place.filePath];
    var at := PatchTracks(file, hunks, place.lineStart, place.lineEnd);
    var mapped := MapRange(hunks, place.lineStart, place.lineEnd).value;
    assert TracksAt(before, place, after, Place(path, mapped.0, mapped.1), at);
  }

  /** One patched file: the range goes through exactly when no line of it is deleted. */
  lemma PatchedIsFaithful(before: Tree, after: Tree, place: Place, f: CarryFile)
    requires InTree(before, place) && FileOk(before, f, after)
    requires Describes(f, place.filePath) && f.status != Removed && f.patch.Some?
    ensures var r := CarryPlace(place, map[place.filePath := f]);
            && (r.None? <==> LostBy(before, f, after, place))
            && (r.Some? ==> Tracks(before, place, after, r.value) && r.value.filePath == f.path)
  {
    var file, file' := before[place.filePath], after[f.path];
    var hunks :| PatchedBy(file, f.patch.value, file', hunks);
    CarryPatched(place, f, file, file', hunks);
    RangeLostMeansDeleted(file, f.patch.value, file', hunks, place.lineStart, place.lineEnd);
    if MapRange(hunks, place.lineStart, place.lineEnd).Some? {
      RangeTracks(before, after, place, f.path, hunks);
    }
  }

  /** The lines of the place stand unchanged, under the same numbers, in the file at `path`. */
  predicate SameLines(before: Tree, place: Place, after: Tree, path: string)
    requires InTree(before, place)
  {
    path in after && place.lineEnd <= |after[path]| &&
    before[place.filePath][place.lineStart - 1..place.lineEnd] == after[path][place.lineStart - 1..place.lineEnd]
  }

  /** A range as long as before, whose lines go up from end to end: each line keeps its number. */
  lemma {:induction false} NothingMoved(at: seq<int>, first: int, i: nat)
    requires i < |at| && at[0] == first && at[|at| - 1] == first + |at| - 1
    requires forall i, j :: 0 <= i < j < |at| ==> at[i] < at[j]
    ensures at[i] >= first + i
    decreases i
  {
    if i > 0 {
      NothingMoved(at, first, i - 1);
    }
  }

  lemma {:induction false} NothingMovedBack(at: seq<int>, first: int, i: nat)
    requires i < |at| && at[0] == first && at[|at| - 1] == first + |at| - 1
    requires forall i, j :: 0 <= i < j < |at| ==> at[i] < at[j]
    ensures at[i] <= first + i
    decreases |at| - i
  {
    if i < |at| - 1 {
      NothingMovedBack(at, first, i + 1);
    }
  }

  /** Keeping a place as it is follows its lines exactly when they have not changed. */
  lemma InPlaceTracksIff(before: Tree, place: Place, after: Tree, path: string)
    requires InTree(before, place) && path in after
    ensures Tracks(before, place, after, place.(filePath := path)) <==> SameLines(before, place, after, path)
  {
    var place' := place.(filePath := path);
    if SameLines(before, place, after, path) {
      UnchangedTracks(before, place, after, path);
    }
    if Tracks(before, place, after, place') {
      var at :| TracksAt(before, place, after, place', at);
      TrackedIsUnchanged(before, place, after, path, at);
    }
  }

  lemma UnchangedTracks(before: Tree, place: Place, after: Tree, path: string)
    requires InTree(before, place) && SameLines(before, place, after, path)
    ensures Tracks(before, place, after, place.(filePath := path))
  {
    var was := before[place.filePath][place.lineStart - 1..place.lineEnd];
    var now := after[path][place.lineStart - 1..place.lineEnd];
    var at := seq(|was|, i requires 0 <= i < |was| => place.lineStart + i);
    forall i | 0 <= i < |was|
      ensures after[path][at[i] - 1] == before[place.filePath][place.lineStart + i - 1]
    {
      assert was[i] == now[i];
    }
    assert TracksAt(before, place, after, place.(filePath := path), at);
  }

  lemma TrackedIsUnchanged(before: Tree, place: Place, after: Tree, path: string, at: seq<int>)
    requires TracksAt(before, place, after, place.(filePath := path), at)
    ensures SameLines(before, place, after, path)
  {
    var was := before[place.filePath][place.lineStart - 1..place.lineEnd];
    var now := after[path][place.lineStart - 1..place.lineEnd];
    forall i | 0 <= i < |was|
      ensures was[i] == now[i]
    {
      NothingMoved(at, place.lineStart, i);
      NothingMovedBack(at, place.lineStart, i);
    }
    assert was == now;
  }

  /** A file without a patch leaves the place where it was: right exactly when its lines have not changed. */
  lemma UnseenKeepsPlace(before: Tree, after: Tree, place: Place, f: CarryFile)
    requires InTree(before, place) && FileOk(before, f, after)
    requires Describes(f, place.filePath) && f.status != Removed && f.patch.None?
    ensures var r := CarryPlace(place, map[place.filePath := f]);
            && r == Some(place.(filePath := f.path)) && !LostBy(before, f, after, place)
            && (Tracks(before, place, after, r.value) <==> SameLines(before, place, after, f.path))
  {
    InPlaceTracksIff(before, place, after, f.path);
  }

  /** Where the file of the place comes without a patch, its lines have not changed. */
  ghost predicate UnchangedIfUnseen(before: Tree, files: seq<CarryFile>, after: Tree, place: Place)
    requires InTree(before, place)
  {
    forall f :: f in files && Describes(f, place.filePath) && f.status != Removed && f.patch.None? ==>
      SameLines(before, place, after, f.path)
  }

  lemma UnseenIs(before: Tree, files: seq<CarryFile>, after: Tree, place: Place, f: CarryFile)
    requires IsPush(before, files, after) && InTree(before, place)
    requires f in files && Describes(f, place.filePath)
    ensures UnchangedIfUnseen(before, files, after, place) <==>
            (f.status != Removed && f.patch.None? ==> SameLines(before, place, after, f.path))
  {
    forall g | g in files && Describes(g, place.filePath)
      ensures g == f
    {
      OnlyOneDescribes(before, files, after, f, g, place.filePath);
    }
  }

  /** One push, seen from the file that describes it. */
  lemma DescribedIsFaithfulIff(before: Tree, files: seq<CarryFile>, after: Tree, place: Place, f: CarryFile)
    requires IsPush(before, files, after) && InTree(before, place)
    requires f in files && Describes(f, place.filePath)
    ensures Faithful(before, files, after, place, CarryPlace(place, map[place.filePath := f])) <==>
            UnchangedIfUnseen(before, files, after, place)
  {
    LostIsLostBy(before, files, after, place, f);
    UnseenIs(before, files, after, place, f);
    if f.status != Removed {
      if f.patch.Some? {
        PatchedIsFaithful(before, after, place, f);
      } else {
        UnseenKeepsPlace(before, after, place, f);
      }
    }
  }

  /** A place nobody describes has not moved. */
  lemma UntouchedIsFaithful(before: Tree, files: seq<CarryFile>, after: Tree, place: Place)
    requires IsPush(before, files, after) && InTree(before, place)
    requires forall f :: f in files ==> !Describes(f, place.filePath)
    ensures Faithful(before, files, after, place, Some(place))
  {
    assert after[place.filePath] == before[place.filePath];
    SameTextTracks(before, place, after);
  }

  lemma SameTextTracks(before: Tree, place: Place, after: Tree)
    requires InTree(before, place) && place.filePath in after
    requires after[place.filePath] == before[place.filePath]
    ensures Tracks(before, place, after, place)
  {
    var n := place.lineEnd - place.lineStart + 1;
    var at := seq(n, i requires 0 <= i < n => place.lineStart + i);
    assert TracksAt(before, place, after, place, at);
  }

  /** Past the end of the file a patch shifts by what the file grew. */
  lemma {:induction false} MapPastEnd(file: seq<string>, hunks: seq<DiffHunk>, pos: nat, newPos: nat, l: int)
    requires FitsFrom(file, hunks, pos, newPos) && Ordered(|file|, hunks, pos) && pos <= |file|
    requires l > |file|
    ensures MapFrom(hunks, l, newPos - pos) == Some(l - |file| + newPos + |ApplyFrom(file, hunks, pos)|)
  {
    if hunks != [] {
      var h := hunks[0];
      var lo := FirstOld(h) - 1;
      var newPos' := newPos + (lo - pos) + NewCount(h.lines);
      RestFits(file, hunks, pos, newPos);
      hide FitsFrom, Ordered, MapFrom, ApplyFrom;
      FitsIsOrdered(file, hunks[1..], lo + h.oldCount, newPos');
      MapPastEnd(file, hunks[1..], lo + h.oldCount, newPos', l);
      MapSkipsHunk(hunks, pos, newPos, l);
      ApplyCounts(file, hunks, pos);
    }
  }

  lemma RestFits(file: seq<string>, hunks: seq<DiffHunk>, pos: nat, newPos: nat)
    requires FitsFrom(file, hunks, pos, newPos) && hunks != []
    ensures var h := hunks[0];
            var lo := FirstOld(h) - 1;
            && pos <= lo && lo + h.oldCount <= |file| && OldCount(h.lines) == h.oldCount
            && FitsFrom(file, hunks[1..], lo + h.oldCount, newPos + (lo - pos) + NewCount(h.lines))
  {
  }

  lemma ApplyCounts(file: seq<string>, hunks: seq<DiffHunk>, pos: nat)
    requires Ordered(|file|, hunks, pos) && hunks != []
    ensures var h := hunks[0];
            var lo := FirstOld(h) - 1;
            && pos <= lo && Ordered(|file|, hunks[1..], lo + h.oldCount)
            && |ApplyFrom(file, hunks, pos)| ==
               (lo - pos) + NewCount(h.lines) + |ApplyFrom(file, hunks[1..], lo + h.oldCount)|
  {
    SideCounts(hunks[0].lines);
  }

  /** An added file that takes the path sends the range past the end of the new file. */
  lemma AddedIsUnfaithful(before: Tree, files: seq<CarryFile>, after: Tree, place: Place, f: CarryFile)
    requires IsPush(before, files, after) && InTree(before, place)
    requires f in files && f.status == Added && f.path == place.filePath && f.patch.Some?
    ensures var r := CarryPlace(place, map[place.filePath := f]);
            r.Some? && r.value.filePath in after && r.value.lineEnd > |after[r.value.filePath]|
  {
    assert FileOk(before, f, after);
    var hunks :| PatchedBy([], f.patch.value, after[f.path], hunks);
    SameRange([], f.patch.value, after[f.path], hunks, place.lineStart, place.lineEnd);
    RangePastEnd(hunks, place.lineStart, place.lineEnd);
  }

  lemma RangePastEnd(hunks: seq<DiffHunk>, s: int, e: int)
    requires Fits([], hunks) && 1 <= s <= e
    ensures MapRange(hunks, s, e) == Some((s + |Apply([], hunks)|, e + |Apply([], hunks)|))
  {
    hide FitsFrom, ApplyFrom, MapFrom, Ordered, MapRange;
    FitsIsOrdered([], hunks, 0, 0);
    var n := |Apply([], hunks)|;
    forall l: int | s <= l <= e
      ensures Map(hunks, l) == Some(l + n)
    {
      MapPastEnd([], hunks, 0, 0, l);
    }
    RangeShifts(hunks, s, e, n);
  }

  lemma RangeShifts(hunks: seq<DiffHunk>, s: int, e: int, n: nat)
    requires 1 <= s <= e && forall l: int :: s <= l <= e ==> Map(hunks, l) == Some(l + n)
    ensures MapRange(hunks, s, e) == Some((s + n, e + n))
  {
    hide Map;
    assert Survives(hunks, s, e);
  }

  /** One without a patch leaves the place under the old path, where its lines no longer are. */
  lemma AddedUnseenIsUnfaithful(before: Tree, files: seq<CarryFile>, after: Tree, place: Place, f: CarryFile)
    requires IsPush(before, files, after) && InTree(before, place)
    requires f in files && f.status == Added && f.path == place.filePath && f.patch.None?
    ensures !Faithful(before, files, after, place, CarryPlace(place, map[place.filePath := f]))
  {
    var g :| g in files && Describes(g, place.filePath);
    if g.status == Removed {
      assert LostBy(before, g, after, place);
    } else {
      assert g.path != f.path by { PathsDiffer(before, files, after, f, g); }
      forall x | x in files && Describes(x, place.filePath)
        ensures x == g
      {
        OnlyOneDescribes(before, files, after, g, x, place.filePath);
      }
    }
  }

  lemma PathsDiffer(before: Tree, files: seq<CarryFile>, after: Tree, f: CarryFile, g: CarryFile)
    requires IsPush(before, files, after) && f in files && g in files && f != g
    requires f.status != Removed && g.status != Removed
    ensures f.path != g.path
  {
    var i :| 0 <= i < |files| && files[i] == f;
    var j :| 0 <= j < |files| && files[j] == g;
  }

  /** Carrying is faithful to a push exactly when no added file takes over the finding's old path and,
      where its file comes without a patch, its lines have not changed. */
  lemma CarryIsFaithfulIff(before: Tree, files: seq<CarryFile>, after: Tree, place: Place)
    requires IsPush(before, files, after) && InTree(before, place)
    ensures Faithful(before, files, after, place, CarryPlace(place, Claims(files))) <==>
            !AddedWins(files, place.filePath) && UnchangedIfUnseen(before, files, after, place)
  {
    var p := place.filePath;
    ClaimsHasLast(files, p);
    if p !in Claims(files) {
      UntouchedIsFaithful(before, files, after, place);
    } else {
      var f := Claims(files)[p];
      assert CarryPlace(place, Claims(files)) == CarryPlace(place, map[p := f]);
      if f.status != Added {
        DescribedIsFaithfulIff(before, files, after, place, f);
      } else if f.patch.Some? {
        AddedIsUnfaithful(before, files, after, place, f);
      } else {
        AddedUnseenIsUnfaithful(before, files, after, place, f);
      }
    }
  }

  /** A new one-line file, as a diff. */
  predicate IsAddedLine(h: DiffHunk, text: string) {
    h.oldStart == 0 && h.oldCount == 0 && h.newStart == 1 && h.lines == [NumberedLine(Add, text, 0, 1)]
  }

  lemma AddedLineCounts(h: DiffHunk, text: string)
    requires IsAddedLine(h, text)
    ensures WellNumbered(h) && OldCount(h.lines) == 0 && NewCount(h.lines) == 1
    ensures OldTexts(h.lines) == [] && NewTexts(h.lines) == [text]
  {
    var x := h.lines[0];
    OneAddedLine(x, text, h.oldStart, h.newStart);
    OneAddedText(x);
    assert h.lines == [x];
    hide Numbered, OldCount, NewCount, OldTexts, NewTexts;
  }

  lemma OneAddedLine(x: DiffLine, text: string, o: nat, n: nat)
    requires x == NumberedLine(Add, text, o, n)
    ensures Numbered([x], o, n) && OldCount([x]) == 0 && NewCount([x]) == 1
  {
    NothingNumbered([x][..0], o, n);
  }

  lemma NothingNumbered(none: seq<DiffLine>, o: nat, n: nat)
    requires none == []
    ensures Numbered(none, o, n) && OldCount(none) == 0 && NewCount(none) == 0
  {
  }

  lemma OneAddedText(x: DiffLine)
    requires x.kind == Add
    ensures OldTexts([x]) == [] && NewTexts([x]) == [x.text]
  {
    var none: seq<DiffLine> := [];
    assert [x][..0] == none;
    assert OldTexts(none) == [] && NewTexts(none) == [];
  }

  lemma AddedLineFits(h: DiffHunk, text: string)
    requires IsAddedLine(h, text)
    ensures Fits([], [h]) && Apply([], [h]) == [text]
  {
    AddedLineCounts(h, text);
    hide Numbered, OldCount, NewCount, OldTexts, NewTexts, FitsFrom, ApplyFrom, Ordered;
    OneHunkAppends([], [h], 0, 0);
  }

  /** A hunk that only adds a line, at the end of the file. */
  lemma OneHunkAppends(file: seq<string>, hunks: seq<DiffHunk>, pos: nat, newPos: nat)
    requires |hunks| == 1 && pos == |file|
    requires var h := hunks[0];
             && h.oldStart == pos && h.oldCount == 0 && h.newStart == newPos + 1 && WellNumbered(h)
             && OldCount(h.lines) == 0 && NewCount(h.lines) == 1 && OldTexts(h.lines) == []
    ensures FitsFrom(file, hunks, pos, newPos) && Ordered(|file|, hunks, pos)
    ensures ApplyFrom(file, hunks, pos) == NewTexts(hunks[0].lines)
  {
    hide Numbered, OldCount, NewCount, OldTexts, NewTexts;
    var rest := hunks[1..];
    assert rest == [];
    assert file[pos..] == [] && file[pos..pos] == [];
    assert FitsFrom(file, rest, pos, newPos + 1) && Ordered(|file|, rest, pos) && ApplyFrom(file, rest, pos) == [];
  }

  /** The one old file renamed by `move`, and a file added under its path by `add`, listed in that order. */
  ghost predicate IsTakeover(
    before: Tree, files: seq<CarryFile>, after: Tree, a: string, b: string, was: seq<string>, text: seq<string>,
    move: string, add: string)
  {
    && a != "" && a != b && |was| == 1
    && before == map[a := was] && after == map[b := was, a := text]
    && |files| == 2
    && files[0] == CarryFile(b, Some(a), Renamed, Some(move)) && IsDiff(was, move, was)
    && files[1] == CarryFile(a, None, Added, Some(add)) && IsDiff([], add, text)
  }

  lemma TakeoverFilesOk(
    before: Tree, files: seq<CarryFile>, after: Tree, a: string, b: string, was: seq<string>, text: seq<string>,
    move: string, add: string)
    requires IsTakeover(before, files, after, a, b, was, text, move, add)
    ensures FileOk(before, files[0], after) && FileOk(before, files[1], after)
  {
    hide IsDiff;
  }

  lemma TwoFilesPush(before: Tree, files: seq<CarryFile>, after: Tree)
    requires |files| == 2 && FileOk(before, files[0], after) && FileOk(before, files[1], after)
    requires files[0].status == Renamed && files[1].status == Added && files[0].path != files[1].path
    requires before.Keys == {files[1].path} == {OldPath(files[0])}
    ensures IsPush(before, files, after)
  {
    hide FileOk, OldPath;
    assert files[0] in files;
    assert Describes(files[0], files[1].path) by { OldPathIs(files[0], files[1].path); }
  }

  lemma OldPathIs(f: CarryFile, p: string)
    requires f.status == Renamed && {p} == {OldPath(f)}
    ensures Describes(f, p)
  {
    assert OldPath(f) in {p};
  }

  lemma AddedLinePatch(h: DiffHunk, text: string)
    requires IsAddedLine(h, text) && OneLine(text)
    ensures IsDiff([], PrintPatch([h]), [text])
  {
    AddedLineCounts(h, text);
    AddedLineFits(h, text);
    PrintParseRoundTrip([h]);
    assert PatchedBy([], PrintPatch([h]), [text], [h]);
  }

  lemma {:induction false} EmptyPatch(file: seq<string>)
    ensures IsDiff(file, PrintPatch([]), file)
  {
    PrintParseRoundTrip([]);
    assert Fits(file, []);
    assert file[0..] == file;
    assert PatchedBy(file, PrintPatch([]), file, []);
  }

  lemma LastAddedWins(front: seq<CarryFile>, f: CarryFile)
    requires f.status == Added
    ensures AddedWins(front + [f], f.path)
  {
    assert (front + [f])[..|front|] == front;
  }

  /** A push that carries `place` elsewhere than its lines went. */
  ghost predicate Misleads(before: Tree, files: seq<CarryFile>, after: Tree, place: Place) {
    && IsPush(before, files, after) && InTree(before, place)
    && !Faithful(before, files, after, place, CarryPlace(place, Claims(files)))
  }

  lemma AddedWinsMisleads(before: Tree, files: seq<CarryFile>, after: Tree, place: Place)
    requires IsPush(before, files, after) && InTree(before, place) && AddedWins(files, place.filePath)
    ensures Misleads(before, files, after, place)
  {
    CarryIsFaithfulIff(before, files, after, place);
  }

  lemma TakeoverMisleads(
    before: Tree, files: seq<CarryFile>, after: Tree, a: string, b: string, was: seq<string>, text: seq<string>,
    move: string, add: string)
    requires IsTakeover(before, files, after, a, b, was, text, move, add)
    ensures Misleads(before, files, after, Place(a, 1, 1))
  {
    TakeoverFilesOk(before, files, after, a, b, was, text, move, add);
    hide FileOk, Misleads, AddedWins, IsPush, IsDiff;
    TwoFilesPush(before, files, after);
    LastAddedWins([files[0]], files[1]);
    assert [files[0]] + [files[1]] == files;
    AddedWinsMisleads(before, files, after, Place(a, 1, 1));
  }

  /** Some diff adds any one-line file. */
  lemma OneLineDiff(text: string) returns (patch: string)
    requires OneLine(text)
    ensures IsDiff([], patch, [text])
  {
    var h := DiffHunk(0, 0, 1, [NumberedLine(Add, text, 0, 1)]);
    AddedLinePatch(h, text);
    patch := PrintPatch([h]);
  }

  lemma EmptyDiff(file: seq<string>) returns (patch: string)
    ensures IsDiff(file, patch, file)
  {
    EmptyPatch(file);
    patch := PrintPatch([]);
  }

  /** Any one-line file renamed and replaced by another: the push is reported in two entries that
      carry its finding to the new file. */
  lemma TakeoverExample(a: string, b: string, was: string, text: string)
    requires a != "" && a != b && OneLine(text)
    ensures exists files :: Misleads(map[a := [was]], files, map[b := [was], a := [text]], Place(a, 1, 1))
  {
    hide Misleads, IsDiff, OneLine;
    var move := EmptyDiff([was]);
    var add := OneLineDiff(text);
    MisleadsWith(a, b, [was], [text], move, add);
  }

  lemma MisleadsWith(a: string, b: string, was: seq<string>, text: seq<string>, move: string, add: string)
    requires a != "" && a != b && |was| == 1 && IsDiff(was, move, was) && IsDiff([], add, text)
    ensures exists files :: Misleads(map[a := was], files, map[b := was, a := text], Place(a, 1, 1))
  {
    hide Misleads, IsDiff;
    var files := [CarryFile(b, Some(a), Renamed, Some(move)), CarryFile(a, None, Added, Some(add))];
    TakeoverMisleads(map[a := was], files, map[b := was, a := text], a, b, was, text, move, add);
  }

  // ----- any number of pushes -----

  predicate DistinctOldPaths(files: seq<CarryFile>) {
    forall i, j :: 0 <= i < j < |files| ==> OldPath(files[i]) != OldPath(files[j])
  }

  /** With distinct old paths an added file never takes over a path of the old tree. */
  lemma DistinctMeansNoTakeover(before: Tree, files: seq<CarryFile>, after: Tree, p: string)
    requires IsPush(before, files, after) && DistinctOldPaths(files) && p in before
    ensures !AddedWins(files, p)
  {
    ClaimsHasLast(files, p);
  }

  lemma TracksCompose(t0: Tree, p0: Place, t1: Tree, p1: Place, t2: Tree, p2: Place)
    requires Tracks(t0, p0, t1, p1) && Tracks(t1, p1, t2, p2)
    ensures Tracks(t0, p0, t2, p2)
  {
    var a :| TracksAt(t0, p0, t1, p1, a);
    var b :| TracksAt(t1, p1, t2, p2, b);
    var at := seq(|a|, i requires 0 <= i < |a| => b[a[i] - p1.lineStart]);
    assert TracksAt(t0, p0, t2, p2, at);
  }

  /** A place after a chain of steps, while every step keeps it. */
  function Run(place: Place, steps: seq<Place -> Option<Place>>): Option<Place> {
    if steps == [] then Some(place)
    else
      var before := Run(place, steps[..|steps| - 1]);
      if before.Some? then steps[|steps| - 1](before.value) else None
  }

  function Carries(pushes: seq<seq<CarryFile>>): (r: seq<Place -> Option<Place>>)
    ensures |r| == |pushes|
    ensures forall k :: 0 <= k < |r| ==> r[k] == CarryWith(Claims(pushes[k]))
  {
    seq(|pushes|, k requires 0 <= k < |pushes| => CarryWith(Claims(pushes[k])))
  }

  ghost predicate IsHistory(trees: seq<Tree>, pushes: seq<seq<CarryFile>>) {
    && |trees| == |pushes| + 1
    && forall k :: 0 <= k < |pushes| ==> IsPush(trees[k], pushes[k], trees[k + 1])
  }

  lemma TracksItself(tree: Tree, place: Place)
    requires InTree(tree, place)
    ensures Tracks(tree, place, tree, place)
  {
    var n := place.lineEnd - place.lineStart + 1;
    assert TracksAt(tree, place, tree, place, seq(n, i requires 0 <= i < n => place.lineStart + i));
  }

  /** Where the file p is after the pushes, renamed by one after the other. */
  ghost predicate PathAfter(pushes: seq<seq<CarryFile>>, p: string, q: string)
    decreases |pushes|, 1
  {
    if pushes == [] then q == p else exists m :: PathThrough(pushes, p, m, q)
  }

  /** All pushes but the last lead from p to m, the last one from there to q. */
  ghost predicate PathThrough(pushes: seq<seq<CarryFile>>, p: string, m: string, q: string)
    requires pushes != []
    decreases |pushes|, 0
  {
    PathAfter(pushes[..|pushes| - 1], p, m) && MovesTo(pushes[|pushes| - 1], m, q)
  }

  /** What happened to the lines of a place over the first n pushes: r is where they are, None when lost. */
  ghost predicate Follows(trees: seq<Tree>, pushes: seq<seq<CarryFile>>, place: Place, n: nat, r: Option<Place>)
    requires IsHistory(trees, pushes) && n <= |pushes|
  {
    r.Some? ==> Tracks(trees[0], place, trees[n], r.value) && PathAfter(pushes[..n], place.filePath, r.value.filePath)
  }

  /** A run ends early exactly when some step closes the place the steps before it led to. */
  lemma {:induction false} RunStops(steps: seq<Place -> Option<Place>>, place: Place)
    ensures Run(place, steps).None? <==>
            exists k :: 0 <= k < |steps| && Run(place, steps[..k]).Some? && steps[k](Run(place, steps[..k]).value).None?
  {
    var n := |steps|;
    if n > 0 {
      RunStops(steps[..n - 1], place);
      forall k | 0 <= k < n
        ensures steps[..n - 1][..k] == steps[..k]
      {
      }
    }
  }

  /** Push k closed the finding, which was still carried before it. */
  ghost predicate ClosedAt(trees: seq<Tree>, pushes: seq<seq<CarryFile>>, place: Place, k: nat)
    requires IsHistory(trees, pushes) && k < |pushes|
  {
    var before := Run(place, Carries(pushes)[..k]);
    before.Some? && Lost(trees[k], pushes[k], trees[k + 1], before.value)
  }

  /** No push on the way takes the finding's path over, nor hides a change to its lines. */
  ghost predicate SafeAlong(trees: seq<Tree>, pushes: seq<seq<CarryFile>>, place: Place)
    requires IsHistory(trees, pushes)
  {
    forall k, q :: 0 <= k < |pushes| && Run(place, Carries(pushes)[..k]) == Some(q) && InTree(trees[k], q) ==>
      IsSafe(trees[k], pushes[k], trees[k + 1], q)
  }

  ghost predicate IsSafe(before: Tree, files: seq<CarryFile>, after: Tree, place: Place)
    requires InTree(before, place)
  {
    !AddedWins(files, place.filePath) && UnchangedIfUnseen(before, files, after, place)
  }

  lemma PushIsFaithful(trees: seq<Tree>, pushes: seq<seq<CarryFile>>, k: nat, p: Place)
    requires IsHistory(trees, pushes) && k < |pushes| && InTree(trees[k], p)
    requires IsSafe(trees[k], pushes[k], trees[k + 1], p)
    ensures Faithful(trees[k], pushes[k], trees[k + 1], p, Carries(pushes)[k](p))
  {
    CarryIsFaithfulIff(trees[k], pushes[k], trees[k + 1], p);
  }

  lemma {:induction false} PushesFollow(trees: seq<Tree>, pushes: seq<seq<CarryFile>>, place: Place, n: nat)
    requires IsHistory(trees, pushes) && InTree(trees[0], place) && n <= |pushes|
    requires SafeAlong(trees, pushes, place)
    ensures Follows(trees, pushes, place, n, Run(place, Carries(pushes)[..n]))
    decreases n
  {
    if n == 0 {
      TracksItself(trees[0], place);
    } else {
      PushesFollow(trees, pushes, place, n - 1);
      FollowsOn(trees, pushes, place, n - 1);
    }
  }

  lemma RunOn(steps: seq<Place -> Option<Place>>, place: Place, n: nat)
    requires n < |steps|
    ensures Run(place, steps[..n + 1]) ==
            var before := Run(place, steps[..n]);
            if before.Some? then steps[n](before.value) else None
  {
    assert steps[..n + 1][..n] == steps[..n];
  }

  lemma FollowsOn(trees: seq<Tree>, pushes: seq<seq<CarryFile>>, place: Place, n: nat)
    requires IsHistory(trees, pushes) && SafeAlong(trees, pushes, place) && n < |pushes|
    requires Follows(trees, pushes, place, n, Run(place, Carries(pushes)[..n]))
    ensures Follows(trees, pushes, place, n + 1, Run(place, Carries(pushes)[..n + 1]))
  {
    var before := Run(place, Carries(pushes)[..n]);
    RunOn(Carries(pushes), place, n);
    if before.Some? {
      TracksStaysInTree(trees[0], place, trees[n], before.value);
      hide Tracks, IsSafe, Run, Carries, Lost, MovesTo, PathAfter;
      PushIsFaithful(trees, pushes, n, before.value);
      var r := Carries(pushes)[n](before.value);
      if r.Some? {
        TracksCompose(trees[0], place, trees[n], before.value, trees[n + 1], r.value);
        PathGoesOn(pushes, n, place.filePath, before.value.filePath, r.value.filePath);
      }
    }
  }

  lemma PathGoesOn(pushes: seq<seq<CarryFile>>, n: nat, p: string, m: string, q: string)
    requires n < |pushes| && PathAfter(pushes[..n], p, m) && MovesTo(pushes[n], m, q)
    ensures PathAfter(pushes[..n + 1], p, q)
  {
    hide MovesTo;
    assert pushes[..n + 1][..n] == pushes[..n];
    assert PathThrough(pushes[..n + 1], p, m, q);
  }

  lemma TracksStaysInTree(before: Tree, place: Place, after: Tree, place': Place)
    requires Tracks(before, place, after, place')
    ensures InTree(after, place')
  {
  }

  lemma ClosesMeansLost(trees: seq<Tree>, pushes: seq<seq<CarryFile>>, place: Place, k: nat)
    requires IsHistory(trees, pushes) && InTree(trees[0], place) && k < |pushes| && SafeAlong(trees, pushes, place)
    ensures ClosedAt(trees, pushes, place, k) <==>
            Run(place, Carries(pushes)[..k]).Some? && Carries(pushes)[k](Run(place, Carries(pushes)[..k]).value).None?
  {
    PushesFollow(trees, pushes, place, k);
    var before := Run(place, Carries(pushes)[..k]);
    if before.Some? {
      TracksStaysInTree(trees[0], place, trees[k], before.value);
      hide Tracks, IsSafe, Run, Carries, Lost;
      PushIsFaithful(trees, pushes, k, before.value);
    }
  }

  /** Over any chain of pushes a finding still carried covers, unchanged, in order and under the path its
      file was renamed to, every line it covered at first; it is closed exactly when some push removed its file or a line in its range. */
  lemma ChainIsFaithful(trees: seq<Tree>, pushes: seq<seq<CarryFile>>, place: Place)
    requires IsHistory(trees, pushes) && InTree(trees[0], place) && SafeAlong(trees, pushes, place)
    ensures Follows(trees, pushes, place, |pushes|, Run(place, Carries(pushes)))
    ensures Run(place, Carries(pushes)).None? <==> exists k :: 0 <= k < |pushes| && ClosedAt(trees, pushes, place, k)
  {
    PushesFollow(trees, pushes, place, |pushes|);
    assert Carries(pushes)[..|pushes|] == Carries(pushes);
    RunStops(Carries(pushes), place);
    forall k | 0 <= k < |pushes|
      ensures ClosedAt(trees, pushes, place, k) <==>
              Run(place, Carries(pushes)[..k]).Some? && Carries(pushes)[k](Run(place, Carries(pushes)[..k]).value).None?
    {
      ClosesMeansLost(trees, pushes, place, k);
    }
  }

  /** With distinct old paths and a patch for every file that is there after the push, every chain is safe. */
  lemma DistinctAndSeenIsSafe(trees: seq<Tree>, pushes: seq<seq<CarryFile>>, place: Place)
    requires IsHistory(trees, pushes)
    requires forall k :: 0 <= k < |pushes| ==> DistinctOldPaths(pushes[k]) && AllSeen(pushes[k])
    ensures SafeAlong(trees, pushes, place)
  {
    forall k, q | 0 <= k < |pushes| && InTree(trees[k], q)
      ensures IsSafe(trees[k], pushes[k], trees[k + 1], q)
    {
      DistinctMeansNoTakeover(trees[k], pushes[k], trees[k + 1], q.filePath);
    }
  }

  predicate AllSeen(files: seq<CarryFile>) {
    forall i :: 0 <= i < |files| && files[i].status != Removed ==> files[i].patch.Some?
  }
}
