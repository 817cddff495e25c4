/** Packaging of one exposure (the `DTS` class): the staging names derived
    from the exposure directory, fpack of every FITS file into the staging
    directory, the tar ball, its checksum and the transfer command. */
module Dts {
  import opened Common
  import opened Text
  import opened PosixPath

  const DefaultScratchDir := "/tmp"
  const RemoteTarget := "galev.org:/sas/misc"
  const NotADirectory := ValueError("Input needs to be an existing directory")
  const UnknownProtocol := ValueError("Could not identfy which transfer protocal to use")

  /** What packaging does to the outside world, in the order it happens. */
  datatype Effect =
    | MakeDir(path: string)          // os.mkdir of the staging directory
    | System(cmd: string)            // a command handed to os.system
    | TransferPlanned(cmd: string)   // the transfer command, announced; its execution is disabled
    | MarkedComplete                 // register_transfer_complete

  /** The host as packaging sees it: the existing directories, what a glob
      pattern lists (in the order glob returns it) and the checksum of a file. */
  datatype Host = Host(dirs: set<string>, glob: string -> seq<string>, md5: string -> string)

  /** Drops exactly one trailing "/", if there is one. */
  function StripTrailingSlash(d: string): (r: string)
    ensures |d| - 1 <= |r| <= |d| && d[..|r|] == r
    ensures |r| < |d| <==> EndsWith(d, "/")
  {
    if EndsWith(d, "/") then d[..|d| - 1] else d
  }

  /** The glob pattern that lists an exposure's FITS files. */
  function FitsPattern(exposureDirectory: string): string
  {
    Join(exposureDirectory, "*.fits")
  }

  /** Where fpack writes the compressed copy of `file`. */
  function FpackTarget(tarDirectory: string, file: string): string
  {
    Join(tarDirectory, Basename(file) + ".fz")
  }

  function FpackCommand(tarDirectory: string, file: string): string
  {
    "fpack -S " + file + " > " + FpackTarget(tarDirectory, file)
  }

  /** The fpack commands for `files`, one per file, in the same order. */
  function FpackEffects(tarDirectory: string, files: seq<string>): seq<Effect>
  {
    if files == [] then []
    else FpackEffects(tarDirectory, files[..|files| - 1])
         + [System(FpackCommand(tarDirectory, files[|files| - 1]))]
  }

  function TarCommand(tarFilename: string, scratchDir: string, dirName: string): string
  {
    "tar --create --seek --file=" + tarFilename + " --directory=" + scratchDir + " " + dirName
  }

  /** The transfer command. The protocol test is short-circuited to secure
      copy, so the sync-copy branch and the error are never reached. */
  function TransferCommand(protocol: string, tarFilename: string, remote: string): (r: Result<string>)
    ensures r == Ok("scp " + tarFilename + " " + remote)
  {
    if protocol == "scp" || true then Ok("scp " + tarFilename + " " + remote)
    else if protocol == "rsync" then Ok("rsync -avu --progress " + tarFilename + " " + remote)
    else Err(UnknownProtocol)
  }

  class DTS {
    const exposureDirectory: string
    const scratchDir: string
    const dirName: string
    const tarDirectory: string
    const tarFilename: string
    const transferProtocol: string
    const remoteTargetDirectory: string
    var tarChecksum: Option<string>
    var effects: seq<Effect>

    /** The staging names are those derived from the exposure directory. */
    ghost predicate Valid()
    {
      && dirName == Basename(exposureDirectory)
      && tarDirectory == Join(scratchDir, dirName)
      && tarFilename == tarDirectory + ".tar"
      && remoteTargetDirectory == RemoteTarget
    }

    /** Everything `archive` does, in order: fpack each FITS file in glob
        order, tar the staging directory, announce the transfer, mark complete. */
    function ArchiveEffects(host: Host): seq<Effect>
    {
      FpackEffects(tarDirectory, host.glob(FitsPattern(exposureDirectory)))
      + [System(TarCommand(tarFilename, scratchDir, dirName))]
      + [TransferPlanned("scp " + tarFilename + " " + remoteTargetDirectory), MarkedComplete]
    }

    /** The name derivation of `__init__` on an input already known to be a
        directory; the staging directory is created when missing. */
    constructor (exposureDirectory: string, host: Host, scratchDir: Option<string> := None, transferProtocol: string := "rsync")
      ensures this.exposureDirectory == StripTrailingSlash(exposureDirectory)
      ensures this.scratchDir == (if scratchDir.Some? then scratchDir.value else DefaultScratchDir)
      ensures dirName == Basename(this.exposureDirectory)
      ensures tarDirectory == Join(this.scratchDir, dirName)
      ensures tarFilename == Join(this.scratchDir, dirName) + ".tar"
      ensures this.transferProtocol == transferProtocol
      ensures remoteTargetDirectory == RemoteTarget
      ensures tarChecksum == None
      ensures effects == if tarDirectory in host.dirs then [] else [MakeDir(tarDirectory)]
      ensures Valid()
    {
      var stripped := StripTrailingSlash(exposureDirectory);
      var scratch := if scratchDir.Some? then scratchDir.value else DefaultScratchDir;
      var name := Basename(stripped);
      var staging := Join(scratch, name);
      this.exposureDirectory := stripped;
      this.scratchDir := scratch;
      this.dirName := name;
      this.tarDirectory := staging;
      this.tarFilename := Join(scratch, name) + ".tar";
      this.transferProtocol := transferProtocol;
      this.remoteTargetDirectory := RemoteTarget;
      this.tarChecksum := None;
      this.effects := if staging in host.dirs then [] else [MakeDir(staging)];
    }

    method Fpack(filename: string)
      modifies this`effects
      ensures effects == old(effects) + [System(FpackCommand(tarDirectory, filename))]
    {
      var fzName := Basename(filename) + ".fz";
      var cmd := "fpack -S " + filename + " > " + Join(tarDirectory, fzName);
      effects := effects + [System(cmd)];
    }

    method MakeTar(host: Host)
      modifies this`effects, this`tarChecksum
      ensures effects == old(effects)
                         + FpackEffects(tarDirectory, host.glob(FitsPattern(exposureDirectory)))
                         + [System(TarCommand(tarFilename, scratchDir, dirName))]
      ensures tarChecksum == Some(host.md5(tarFilename))
    {
      var fitsFiles := host.glob(Join(exposureDirectory, "*.fits"));
      var i := 0;
      while i < |fitsFiles|
        invariant 0 <= i <= |fitsFiles|
        invariant effects == old(effects) + FpackEffects(tarDirectory, fitsFiles[..i])
      {
        assert fitsFiles[..i + 1][..i] == fitsFiles[..i];
        Fpack(fitsFiles[i]);
        i := i + 1;
      }
      assert fitsFiles[..i] == fitsFiles;
      var tarCmd := "tar --create --seek --file=" + tarFilename + " --directory=" + scratchDir + " " + dirName;
      effects := effects + [System(tarCmd)];
      tarChecksum := Some(host.md5(tarFilename));
    }

    /** Announces the transfer command; the source has its execution disabled. */
    method TransferToArchive()
      modifies this`effects
      ensures effects == old(effects) + [TransferPlanned("scp " + tarFilename + " " + remoteTargetDirectory)]
    {
      var cmd := TransferCommand(transferProtocol, tarFilename, remoteTargetDirectory);
      effects := effects + [TransferPlanned(cmd.value)];
    }

    method RegisterTransferComplete()
      modifies this`effects
      ensures effects == old(effects) + [MarkedComplete]
    {
      effects := effects + [MarkedComplete];
    }

    method Archive(host: Host)
      modifies this`effects, this`tarChecksum
      ensures effects == old(effects) + ArchiveEffects(host)
      ensures tarChecksum == Some(host.md5(tarFilename))
    {
      MakeTar(host);
      TransferToArchive();
      RegisterTransferComplete();
    }
  }

  /** `DTS(exposure_directory, scratch_dir, transfer_protocol, auto_start)`:
      a non-directory is refused before any state exists; otherwise the
      names are derived and, with auto start, the exposure is archived. */
  method Open(exposureDirectory: string, host: Host, scratchDir: Option<string> := None,
              transferProtocol: string := "rsync", autoStart: bool := true) returns (r: Result<DTS>)
    ensures r.Err? <==> exposureDirectory !in host.dirs
    ensures r.Err? ==> r.error == NotADirectory
    ensures r.Ok? ==> fresh(r.value) && r.value.Valid()
    ensures r.Ok? ==> r.value.exposureDirectory == StripTrailingSlash(exposureDirectory)
    ensures r.Ok? ==> r.value.scratchDir == (if scratchDir.Some? then scratchDir.value else DefaultScratchDir)
    ensures r.Ok? ==> r.value.transferProtocol == transferProtocol
    ensures r.Ok? ==> r.value.effects
                      == (if r.value.tarDirectory in host.dirs then [] else [MakeDir(r.value.tarDirectory)])
                         + (if autoStart then r.value.ArchiveEffects(host) else [])
    ensures r.Ok? ==> r.value.tarChecksum == (if autoStart then Some(host.md5(r.value.tarFilename)) else None)
  {
    if exposureDirectory !in host.dirs {
      return Err(NotADirectory);
    }
    var d := new DTS(exposureDirectory, host, scratchDir, transferProtocol);
    if autoStart {
      d.Archive(host);
    }
    return Ok(d);
  }

  /** `make_tar` runs one fpack per FITS file, in glob order. */
  lemma {:induction false} FpackEveryFile(tarDirectory: string, files: seq<string>)
    ensures |FpackEffects(tarDirectory, files)| == |files|
    ensures forall i :: 0 <= i < |files| ==>
              FpackEffects(tarDirectory, files)[i] == System(FpackCommand(tarDirectory, files[i]))
  {
    if files != [] {
      FpackEveryFile(tarDirectory, files[..|files| - 1]);
    }
  }

  /** The staging directory is named by the last component of the exposure
      directory once one trailing "/" is dropped. */
  lemma DirNameIsLastComponent(exposureDirectory: string)
    ensures var stripped := StripTrailingSlash(exposureDirectory);
            var name := Basename(stripped);
            && '/' !in name
            && EndsWith(stripped, name)
            && (|name| < |stripped| ==> stripped[|stripped| - |name| - 1] == '/')
  {
    BasenameIsLastComponent(StripTrailingSlash(exposureDirectory));
  }

  /** fpack writes into the staging directory, under the source's own file
      name followed by ".fz". */
  lemma FpackWritesIntoStaging(tarDirectory: string, file: string)
    ensures StartsWith(FpackTarget(tarDirectory, file), tarDirectory)
    ensures Basename(FpackTarget(tarDirectory, file)) == Basename(file) + ".fz"
  {
    BasenameIsLastComponent(file);
    BasenameOfJoin(tarDirectory, Basename(file) + ".fz");
  }

  /** The tar ball is written next to the staging directory and archives
      exactly that directory. */
  lemma TarBallOfStagingDirectory(d: DTS)
    requires d.Valid()
    ensures d.tarFilename == d.tarDirectory + ".tar"
    ensures Join(d.scratchDir, d.dirName) == d.tarDirectory
    ensures Basename(d.tarDirectory) == d.dirName
  {
    BasenameIsLastComponent(d.exposureDirectory);
    BasenameOfJoin(d.scratchDir, d.dirName);
  }
}
