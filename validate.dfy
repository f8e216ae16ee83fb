/**
 * The `validate` command: the file checks of `validate_rrd` and the
 * entity-path and timestamp checks of its test double `validate_rrd_mock`.
 * The file system is given as facts about the file; printed messages become
 * error values.
 */
module Validate {
  import opened Options
  import opened Strings

  // ---------------------------------------------------------------------
  // validate_rrd
  // ---------------------------------------------------------------------

  /** What `validate_rrd` learns from the file system: whether the path
    * exists, whether `fs::metadata` fails, whether it is a regular file and
    * its size, whether `File::open` and the first read fail, and how many
    * bytes that read into the 64-byte buffer returned. */
  datatype FileFacts = FileFacts(exists_: bool, metadataFails: bool, isFile: bool, size: nat,
                                 openFails: bool, readFails: bool, firstRead: nat)

  datatype Failure = MissingFile | NotAFile | EmptyFile | TooSmall

  /** The three file-system calls whose error `?` passes to the caller. */
  datatype IoStep = Metadata | Open | Read

  /** The outcome of `validate_rrd`: a failure ends the process with status
    * 1; an I/O error is returned as `Err`. */
  datatype Verdict = Passed | Failed(reason: Failure) | IoError(step: IoStep)

  function ValidateRrd(f: FileFacts): (v: Verdict)
    ensures v == Passed <==>
      f.exists_ && !f.metadataFails && f.isFile && f.size > 0 && !f.openFails && !f.readFails && f.firstRead >= 8
    ensures !f.exists_ ==> v == Failed(MissingFile)
    ensures v == IoError(Metadata) <==> f.exists_ && f.metadataFails
    ensures f.exists_ && !f.metadataFails && !f.isFile ==> v == Failed(NotAFile)
    ensures f.exists_ && !f.metadataFails && f.isFile && f.size == 0 ==> v == Failed(EmptyFile)
    ensures v == IoError(Open) <==> f.exists_ && !f.metadataFails && f.isFile && f.size > 0 && f.openFails
    ensures v == IoError(Read) <==>
      f.exists_ && !f.metadataFails && f.isFile && f.size > 0 && !f.openFails && f.readFails
    ensures v == Failed(TooSmall) <==>
      f.exists_ && !f.metadataFails && f.isFile && f.size > 0 && !f.openFails && !f.readFails && f.firstRead < 8
  {
    if !f.exists_ then Failed(MissingFile)
    else if f.metadataFails then IoError(Metadata)
    else if !f.isFile then Failed(NotAFile)
    else if f.size == 0 then Failed(EmptyFile)
    else if f.openFails then IoError(Open)
    else if f.readFails then IoError(Read)
    else if f.firstRead < 8 then Failed(TooSmall)
    else Passed
  }

  // ---------------------------------------------------------------------
  // validate_rrd_mock
  // ---------------------------------------------------------------------

  /** One entity of the recording: its path and its timestamps in order. */
  datatype Entity = Entity(path: string, stamps: seq<real>)

  datatype EntityError =
    | NoLeadingSlash(entity: string)
    | ContainsSpace(entity: string)
    | NotMonotonic(entity: string, index: nat)

  datatype MockError = FileDoesNotExist | ValidationFailed

  /** The timestamp errors for indices 1..n-1: one per adjacent pair that
    * goes backwards. */
  function Descents(path: string, ts: seq<real>, n: nat): (r: seq<EntityError>)
    requires n <= |ts|
    ensures |r| <= n
    ensures forall k :: 0 <= k < |r| ==> r[k].NotMonotonic? && 1 <= r[k].index < n
                                          && ts[r[k].index] < ts[r[k].index - 1]
  {
    if n <= 1 then []
    else Descents(path, ts, n - 1) + (if ts[n - 1] < ts[n - 2] then [NotMonotonic(path, n - 1)] else [])
  }

  /** The errors reported for one entity, in the order they are pushed. */
  function EntityErrors(e: Entity): seq<EntityError>
  {
    (if !StartsWith(e.path, '/') then [NoLeadingSlash(e.path)] else [])
    + (if ' ' in e.path then [ContainsSpace(e.path)] else [])
    + Descents(e.path, e.stamps, |e.stamps|)
  }

  function AllErrors(es: seq<Entity>): seq<EntityError>
  {
    if |es| == 0 then [] else AllErrors(es[..|es| - 1]) + EntityErrors(es[|es| - 1])
  }

  predicate NonDecreasing(ts: seq<real>)
  {
    forall i :: 1 <= i < |ts| ==> ts[i - 1] <= ts[i]
  }

  /** A well-formed entity: a rooted path without spaces and timestamps that
    * never go backwards (equal neighbours are fine). */
  predicate WellFormed(e: Entity)
  {
    StartsWith(e.path, '/') && ' ' !in e.path && NonDecreasing(e.stamps)
  }

  /** `validate_rrd_mock`: pushes one error per failed check and fails iff
    * any error was pushed. */
  method ValidateRrdMock(fileExists: bool, entities: seq<Entity>) returns (r: Option<MockError>, errors: seq<EntityError>)
    ensures !fileExists ==> r == Some(FileDoesNotExist) && errors == []
    ensures fileExists ==> errors == AllErrors(entities)
    ensures fileExists ==> (r.None? <==> errors == [])
    ensures fileExists && r.Some? ==> r.value == ValidationFailed
  {
    if !fileExists {
      return Some(FileDoesNotExist), [];
    }
    errors := [];
    var k := 0;
    while k < |entities|
      invariant 0 <= k <= |entities|
      invariant errors == AllErrors(entities[..k])
    {
      var entityErrors := CheckEntity(entities[k]);
      AllErrorsStep(entities, k);
      errors := errors + entityErrors;
      k := k + 1;
    }
    assert entities[..k] == entities;
    if errors == [] {
      r := None;
    } else {
      r := Some(ValidationFailed);
    }
  }

  /** The checks of one entity, in the order `validate_rrd_mock` pushes
    * their errors. */
  method CheckEntity(e: Entity) returns (errors: seq<EntityError>)
    ensures errors == EntityErrors(e)
  {
    var slash: seq<EntityError> := [];
    if !StartsWith(e.path, '/') {
      slash := [NoLeadingSlash(e.path)];
    }
    var space: seq<EntityError> := [];
    if ' ' in e.path {
      space := [ContainsSpace(e.path)];
    }
    var stampErrors := CheckStamps(e.path, e.stamps);
    errors := slash + space + stampErrors;
  }

  lemma AllErrorsStep(es: seq<Entity>, k: nat)
    requires k < |es|
    ensures AllErrors(es[..k + 1]) == AllErrors(es[..k]) + EntityErrors(es[k])
  {
    assert es[..k + 1][..k] == es[..k];
  }

  /** The inner loop of `validate_rrd_mock` over one entity's timestamps. */
  method CheckStamps(path: string, ts: seq<real>) returns (errors: seq<EntityError>)
    ensures errors == Descents(path, ts, |ts|)
  {
    errors := [];
    if |ts| == 0 {
      return;
    }
    var i := 1;
    while i < |ts|
      invariant 1 <= i <= |ts|
      invariant errors == Descents(path, ts, i)
    {
      if ts[i] < ts[i - 1] {
        errors := errors + [NotMonotonic(path, i)];
      }
      i := i + 1;
    }
  }

  lemma {:induction false} DescentsEmpty(path: string, ts: seq<real>, n: nat)
    requires n <= |ts|
    ensures Descents(path, ts, n) == [] <==> forall i :: 1 <= i < n ==> ts[i - 1] <= ts[i]
  {
    if n > 1 {
      DescentsEmpty(path, ts, n - 1);
      var prev := Descents(path, ts, n - 1);
      if ts[n - 1] < ts[n - 2] {
        assert Descents(path, ts, n) == prev + [NotMonotonic(path, n - 1)];
        assert !(ts[(n - 1) - 1] <= ts[n - 1]);
      } else {
        assert Descents(path, ts, n) == prev + [];
        assert prev + [] == prev;
      }
    }
  }

  lemma EntityErrorsEmpty(e: Entity)
    ensures EntityErrors(e) == [] <==> WellFormed(e)
  {
    DescentsEmpty(e.path, e.stamps, |e.stamps|);
  }

  /** The mock validation passes iff every entity is well formed. */
  lemma {:induction false} AllErrorsEmpty(es: seq<Entity>)
    ensures AllErrors(es) == [] <==> forall i :: 0 <= i < |es| ==> WellFormed(es[i])
  {
    if |es| > 0 {
      AllErrorsEmpty(es[..|es| - 1]);
      EntityErrorsEmpty(es[|es| - 1]);
      assert forall i :: 0 <= i < |es| - 1 ==> es[..|es| - 1][i] == es[i];
    }
  }

  predicate GoesBack(ts: seq<real>, i: int)
    requires 1 <= i < |ts|
  {
    ts[i] < ts[i - 1]
  }

  /** One error per backwards step: the number of timestamp errors is the
    * number of adjacent pairs that go backwards. */
  lemma {:induction false} DescentsCount(path: string, ts: seq<real>, n: nat)
    requires n <= |ts|
    ensures |Descents(path, ts, n)| == |set i | 1 <= i < n && GoesBack(ts, i)|
  {
    if n > 1 {
      DescentsCount(path, ts, n - 1);
      var prev := set i | 1 <= i < n - 1 && GoesBack(ts, i);
      var now := set i | 1 <= i < n && GoesBack(ts, i);
      if ts[n - 1] < ts[n - 2] {
        assert now == prev + {n - 1};
      } else {
        assert now == prev;
      }
    }
  }

  /** The scenarios of the validator's unit test: two well-formed entities
    * pass, a path without a leading '/' fails, and timestamps 1, 3, 2 give
    * exactly one error, at index 2. */
  lemma MockScenarioValid()
    ensures AllErrors([Entity("/gps/points", [1.0, 2.0, 3.0]), Entity("/odom", [1.0, 2.0, 3.0])]) == []
  {
    var es := [Entity("/gps/points", [1.0, 2.0, 3.0]), Entity("/odom", [1.0, 2.0, 3.0])];
    assert WellFormed(es[0]) && WellFormed(es[1]);
    AllErrorsEmpty(es);
  }

  lemma MockScenarioNoSlash()
    ensures AllErrors([Entity("/gps/points", [1.0, 2.0, 3.0]), Entity("odom", [1.0, 2.0, 3.0])]) != []
  {
    var es := [Entity("/gps/points", [1.0, 2.0, 3.0]), Entity("odom", [1.0, 2.0, 3.0])];
    assert !WellFormed(es[1]);
    AllErrorsEmpty(es);
  }

  lemma MockScenarioBackwards()
    ensures AllErrors([Entity("/gps/points", [1.0, 3.0, 2.0])]) == [NotMonotonic("/gps/points", 2)]
  {
    var e := Entity("/gps/points", [1.0, 3.0, 2.0]);
    assert Descents(e.path, e.stamps, 2) == [];
    assert EntityErrors(e) == [NotMonotonic("/gps/points", 2)];
    assert [e][..0] == [];
  }
}
