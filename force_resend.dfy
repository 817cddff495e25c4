/** The resend script: collect the OBSID of every input (a directory, whose
    first FITS file with an OBSID counts, or a single file, which ends the
    search), then build and run the lookup of their exposure ids. The file
    system is given as the kind of each path, the glob listing of each
    pattern and the OBSID (if any) in each file's primary header. */
module ForceResend {
  import opened Common
  import opened Text

  datatype PathKind = Directory | RegularFile | Other

  /** What opening a file and reading `header['OBSID']` gives. */
  datatype Header = Unreadable | NoObsid | HasObsid(obsid: string)

  /** The environment of the script. */
  datatype Files = Files(kind: string -> PathKind, glob: string -> seq<string>, header: string -> Header)

  /** The pattern of the FITS files directly inside directory `dir`. */
  function FitsGlob(dir: string): string
  {
    dir + "/*.fits"
  }

  /** The inner loop over a directory listing: the first OBSID found, in
      listing order. Opening the file is outside the `try`, so an unreadable
      file ends the script. */
  function DirObsid(listing: seq<string>, header: string -> Header): Result<Option<string>>
  {
    if listing == [] then Ok(None)
    else match header(listing[0])
      case Unreadable => Err(OSError(listing[0]))
      case NoObsid => DirObsid(listing[1..], header)
      case HasObsid(o) => Ok(Some(o))
  }

  /** A directory yields the OBSID of its first file that has one, after
      files without one only, or nothing when none before an unreadable
      file or the end has one. */
  lemma {:induction false} DirObsidIsFirst(listing: seq<string>, header: string -> Header)
    ensures DirObsid(listing, header) == Ok(None) ==>
              forall j :: 0 <= j < |listing| ==> header(listing[j]) == NoObsid
    ensures DirObsid(listing, header).Ok? && DirObsid(listing, header).value.Some? ==>
              exists j :: 0 <= j < |listing| && header(listing[j]) == HasObsid(DirObsid(listing, header).value.value)
                          && forall i :: 0 <= i < j ==> header(listing[i]) == NoObsid
    ensures DirObsid(listing, header).Err? ==>
              exists j :: 0 <= j < |listing| && header(listing[j]) == Unreadable
                          && DirObsid(listing, header).error == OSError(listing[j])
                          && forall i :: 0 <= i < j ==> header(listing[i]) == NoObsid
    decreases |listing|
  {
    if listing != [] && header(listing[0]) == NoObsid {
      var rest := listing[1..];
      DirObsidIsFirst(rest, header);
      var r := DirObsid(listing, header);
      if r.Ok? && r.value.Some? {
        var j :| 0 <= j < |rest| && header(rest[j]) == HasObsid(r.value.value)
                 && forall i :: 0 <= i < j ==> header(rest[i]) == NoObsid;
        assert forall i :: 0 < i <= j ==> listing[i] == rest[i - 1];
        assert listing[j + 1] == rest[j];
      }
      if r.Err? {
        var j :| 0 <= j < |rest| && header(rest[j]) == Unreadable && r.error == OSError(rest[j])
                 && forall i :: 0 <= i < j ==> header(rest[i]) == NoObsid;
        assert forall i :: 0 < i <= j ==> listing[i] == rest[i - 1];
        assert listing[j + 1] == rest[j];
      }
    }
  }

  /** Prefixes `found` to a collection, keeping an exception as it is. */
  function Then(found: seq<string>, r: Result<seq<string>>): Result<seq<string>>
  {
    match r
    case Ok(more) => Ok(found + more)
    case Err(e) => Err(e)
  }

  /** The loop over the inputs: a directory adds its first OBSID; a file with
      an OBSID adds it and breaks out of the loop; an unreadable file, a
      file without OBSID and any other path add nothing. */
  function Collect(inputs: seq<string>, fs: Files): Result<seq<string>>
  {
    if inputs == [] then Ok([])
    else
      var fn := inputs[0];
      match fs.kind(fn)
      case Directory =>
        (match DirObsid(fs.glob(FitsGlob(fn)), fs.header)
         case Err(e) => Err(e)
         case Ok(None) => Collect(inputs[1..], fs)
         case Ok(Some(o)) => Then([o], Collect(inputs[1..], fs)))
      case RegularFile =>
        (match fs.header(fn)
         case HasObsid(o) => Ok([o])
         case _ => Collect(inputs[1..], fs))
      case Other => Collect(inputs[1..], fs)
  }

  /** Each input contributes at most one OBSID. */
  lemma {:induction false} AtMostOnePerInput(inputs: seq<string>, fs: Files)
    ensures Collect(inputs, fs).Ok? ==> |Collect(inputs, fs).value| <= |inputs|
    decreases |inputs|
  {
    if inputs != [] {
      AtMostOnePerInput(inputs[1..], fs);
    }
  }

  /** Every collected OBSID was read from the header of an input file or of
      a file listed in an input directory. */
  lemma {:induction false} CollectedFromHeaders(inputs: seq<string>, fs: Files)
    ensures Collect(inputs, fs).Ok? ==>
              forall o :: o in Collect(inputs, fs).value ==>
                exists k :: 0 <= k < |inputs| && Source(inputs[k], fs, o)
    decreases |inputs|
  {
    if inputs != [] {
      var rest := inputs[1..];
      CollectedFromHeaders(rest, fs);
      var fn := inputs[0];
      var r := Collect(inputs, fs);
      if r.Ok? {
        forall o | o in r.value ensures exists k :: 0 <= k < |inputs| && Source(inputs[k], fs, o) {
          if fs.kind(fn) == Directory && DirObsid(fs.glob(FitsGlob(fn)), fs.header) == Ok(Some(o)) {
            DirObsidIsFirst(fs.glob(FitsGlob(fn)), fs.header);
            assert Source(inputs[0], fs, o);
          } else if fs.kind(fn) == RegularFile && fs.header(fn) == HasObsid(o) {
            assert Source(inputs[0], fs, o);
          } else {
            assert o in Collect(rest, fs).value;
            var k :| 0 <= k < |rest| && Source(rest[k], fs, o);
            assert inputs[k + 1] == rest[k];
          }
        }
      }
    }
  }

  /** `o` is in the header of input `fn` itself or of a file its glob lists. */
  ghost predicate Source(fn: string, fs: Files, o: string)
  {
    || (fs.kind(fn) == RegularFile && fs.header(fn) == HasObsid(o))
    || (fs.kind(fn) == Directory && exists f :: f in fs.glob(FitsGlob(fn)) && fs.header(f) == HasObsid(o))
  }

  /** A file with an OBSID ends the collection: the inputs after it never matter. */
  lemma {:induction false} FileEndsCollection(inputs: seq<string>, k: nat, fs: Files)
    requires k < |inputs|
    requires fs.kind(inputs[k]) == RegularFile && fs.header(inputs[k]).HasObsid?
    ensures Collect(inputs, fs) == Collect(inputs[..k + 1], fs)
    decreases k
  {
    if k > 0 {
      FileEndsCollection(inputs[1..], k - 1, fs);
      assert inputs[1..][..k] == inputs[..k + 1][1..];
    }
  }

  /** The inner loop of the script over one directory listing. */
  method FirstObsidIn(listing: seq<string>, header: string -> Header) returns (r: Result<Option<string>>)
    ensures r == DirObsid(listing, header)
  {
    var j := 0;
    while j < |listing|
      invariant 0 <= j <= |listing|
      invariant DirObsid(listing, header) == DirObsid(listing[j..], header)
    {
      assert listing[j..][1..] == listing[j + 1..];
      var h := header(listing[j]);
      if h.Unreadable? {
        return Err(OSError(listing[j]));
      }
      if h.HasObsid? {
        return Ok(Some(h.obsid));
      }
      j := j + 1;
    }
    return Ok(None);
  }

  /** The outer loop of the script over its inputs. */
  method CollectObsids(inputs: seq<string>, fs: Files) returns (r: Result<seq<string>>)
    ensures r == Collect(inputs, fs)
  {
    var obsids: seq<string> := [];
    var i := 0;
    assert inputs[0..] == inputs;
    ThenNothing(Collect(inputs, fs));
    while i < |inputs|
      invariant 0 <= i <= |inputs|
      invariant Collect(inputs, fs) == Then(obsids, Collect(inputs[i..], fs))
    {
      var fn := inputs[i];
      assert inputs[i..][1..] == inputs[i + 1..];
      var kind := fs.kind(fn);
      if kind == Directory {
        var found := FirstObsidIn(fs.glob(FitsGlob(fn)), fs.header);
        if found.Err? {
          return Err(found.error);
        }
        if found.value.Some? {
          ThenThen(obsids, [found.value.value], Collect(inputs[i + 1..], fs));
          obsids := obsids + [found.value.value];
        }
      } else if kind == RegularFile {
        var h := fs.header(fn);
        if h.HasObsid? {
          // the `break` leaves the loop over the inputs
          return Ok(obsids + [h.obsid]);
        }
      }
      i := i + 1;
    }
    assert obsids + [] == obsids;
    return Ok(obsids);
  }

  lemma ThenNothing(r: Result<seq<string>>)
    ensures Then([], r) == r
  {
    if r.Ok? {
      assert [] + r.value == r.value;
    }
  }

  lemma ThenThen(a: seq<string>, b: seq<string>, r: Result<seq<string>>)
    ensures Then(a, Then(b, r)) == Then(a + b, r)
  {
    if r.Ok? {
      assert a + (b + r.value) == (a + b) + r.value;
    }
  }

  /** `"EXPOSURE LIKE '%<obsid>%'"`. */
  function LikeTerm(obsid: string): string
  {
    "EXPOSURE LIKE '%" + obsid + "%'"
  }

  function LikeTerms(obsids: seq<string>): (r: seq<string>)
    ensures |r| == |obsids|
  {
    seq(|obsids|, i requires 0 <= i < |obsids| => LikeTerm(obsids[i]))
  }

  /** The WHERE clause: the LIKE terms joined by " OR ", in collection order. */
  function WhereClause(obsids: seq<string>): string
  {
    JoinWith(LikeTerms(obsids), " OR ")
  }

  /** The lookup statement. */
  function LookupSql(obsids: seq<string>): string
  {
    "SELECT EXPOSURE, ID FROM EXPOSURES WHERE " + WhereClause(obsids)
  }

  /** Without any OBSID the clause is empty and the statement ends in "WHERE ". */
  lemma EmptyClause()
    ensures WhereClause([]) == ""
    ensures LookupSql([]) == "SELECT EXPOSURE, ID FROM EXPOSURES WHERE "
  {
    assert LikeTerms([]) == [];
  }

  /** Every collected OBSID has its LIKE term in the clause. */
  lemma ClauseMentionsEach(obsids: seq<string>, k: nat)
    requires k < |obsids|
    ensures Contains(WhereClause(obsids), LikeTerm(obsids[k]))
  {
    JoinContainsParts(LikeTerms(obsids), " OR ", k);
  }

  /** The clause grows term by term: one more OBSID adds " OR " and its term. */
  lemma ClauseExtends(obsids: seq<string>, o: string)
    ensures WhereClause([o]) == LikeTerm(o)
    ensures obsids != [] ==> WhereClause(obsids + [o]) == WhereClause(obsids) + " OR " + LikeTerm(o)
  {
    assert LikeTerms([o]) == [LikeTerm(o)];
    if obsids != [] {
      assert LikeTerms(obsids + [o]) == LikeTerms(obsids) + [LikeTerm(o)];
      JoinAppend(LikeTerms(obsids), LikeTerm(o), " OR ");
    }
  }

  /** What the database connection sees. */
  datatype DbEvent = Acquire | Execute(sql: string) | Release

  /** The part of the database connection the script uses: its lock and its cursor. */
  class Database {
    var locked: bool
    var log: seq<DbEvent>

    constructor ()
      ensures !locked && log == []
    {
      locked := false;
      log := [];
    }

    /** Lines 55-58 of the script: execute under the lock. `accepts` is
        whether the database accepts the statement (left free, even for the
        malformed statement of zero OBSIDs) and `rows` what it
        returns; a rejected statement raises with the lock still held. */
    method Lookup(sql: string, accepts: bool, rows: seq<(string, int)>) returns (r: Result<seq<(string, int)>>)
      requires !locked
      modifies this
      ensures log == old(log) + [Acquire, Execute(sql)] + (if accepts then [Release] else [])
      ensures locked <==> !accepts
      ensures accepts ==> r == Ok(rows)
      ensures !accepts ==> r == Err(DatabaseError(sql))
    {
      locked := true;
      log := log + [Acquire];
      log := log + [Execute(sql)];
      if !accepts {
        return Err(DatabaseError(sql));
      }
      locked := false;
      log := log + [Release];
      return Ok(rows);
    }
  }

  /** The whole script: collect, then look up. An exception while collecting
      ends it before the database is used. */
  method Resend(inputs: seq<string>, fs: Files, db: Database, accepts: bool, rows: seq<(string, int)>)
    returns (r: Result<seq<(string, int)>>)
    requires !db.locked
    modifies db
    ensures Collect(inputs, fs).Err? ==> r == Err(Collect(inputs, fs).error) && db.log == old(db.log)
    ensures Collect(inputs, fs).Ok? ==>
              db.log == old(db.log) + [Acquire, Execute(LookupSql(Collect(inputs, fs).value))]
                        + (if accepts then [Release] else [])
    ensures Collect(inputs, fs).Ok? && accepts ==> r == Ok(rows) && !db.locked
    ensures Collect(inputs, fs).Ok? && !accepts ==>
              r == Err(DatabaseError(LookupSql(Collect(inputs, fs).value))) && db.locked
    ensures Collect(inputs, fs).Err? ==> !db.locked
  {
    var obsids := CollectObsids(inputs, fs);
    if obsids.Err? {
      return Err(obsids.error);
    }
    r := db.Lookup(LookupSql(obsids.value), accepts, rows);
  }
}
