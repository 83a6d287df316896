/**
 * The path rules of the add-on upgrader: where a core add-on is installed
 * by type, how `install_package` resolves the source and destination of an
 * unpacked package (with its error exits and the protected-directory rule),
 * how it names the installed folder, and the `destination_selector` filter.
 *
 * The filesystem is a snapshot given as functions (`dirlist` as a sequence
 * of names, `is_dir`, `exists`, `find_folder`), the outcomes of `mkdir`,
 * `copy_dir` and the deletions are inputs, and each host filter is a
 * function or a fixed outcome.
 */
module AddonUpgrader {
  import opened Wrappers
  import opened Strings

  // ---------------------------------------------------------------------
  // Add-on directories
  // ---------------------------------------------------------------------

  /** The directory, below the working core, that `addon_core_updates` installs an add-on of this type into. */
  function AddonDir(kind: string): (r: string)
    ensures kind == "gateway" ==> r == "/shopp/gateways"
    ensures kind == "shipping" ==> r == "/shopp/shipping"
    ensures kind == "storage" ==> r == "/shopp/storage"
    ensures kind !in {"gateway", "shipping", "storage"} ==> r == "/"
  {
    if kind == "gateway" then "/shopp/gateways"
    else if kind == "shipping" then "/shopp/shipping"
    else if kind == "storage" then "/shopp/storage"
    else "/"
  }

  /** An available add-on update: its slug, its type and its package URL. */
  datatype Addon = Addon(slug: string, kind: string, package: string)

  /** One `run` that `addon_core_updates` starts: its package, destination and progress header "n of all". */
  datatype CoreRun = CoreRun(package: string, destination: string, index: nat, all: nat)

  /**
   * The loop of `addon_core_updates`: one run per add-on, in order, into the
   * working core's directory for its type, numbered from 1.
   */
  method CoreAddonRuns(addons: seq<Addon>, workingCore: string) returns (runs: seq<CoreRun>)
    ensures |runs| == |addons|
    ensures forall k :: 0 <= k < |addons| ==>
      runs[k] == CoreRun(addons[k].package, workingCore + AddonDir(addons[k].kind), k + 1, |addons|)
  {
    var all := |addons|;
    var i := 1;
    runs := [];
    while i <= all
      invariant 1 <= i <= all + 1 && |runs| == i - 1
      invariant forall k :: 0 <= k < i - 1 ==>
        runs[k] == CoreRun(addons[k].package, workingCore + AddonDir(addons[k].kind), k + 1, all)
    {
      var addon := addons[i - 1];
      runs := runs + [CoreRun(addon.package, workingCore + AddonDir(addon.kind), i, all)];
      i := i + 1;
    }
  }

  // ---------------------------------------------------------------------
  // The environment
  // ---------------------------------------------------------------------

  /** The host's base directories: `ABSPATH`, `WP_CONTENT_DIR`, `WP_PLUGIN_DIR` and the three add-on directories. */
  datatype Env = Env(abspath: string, contentDir: string, pluginDir: string,
                     gatewaysDir: string, shippingDir: string, storageDir: string)

  /** A snapshot of the filesystem and the outcomes of the operations that change it. */
  datatype Filesystem = Filesystem(
    dirlist: string -> seq<string>,
    isDir: string -> bool,
    pathExists: string -> bool,
    findFolder: string -> string,
    mkdir: string -> bool,
    copyDir: (string, string) -> Option<string>)

  /**
   * The host filters around an install: `upgrader_pre_install` (an error
   * code or nothing), `upgrader_source_selection`, the outcome of deleting
   * the old destination as `upgrader_clear_destination` reports it, and
   * `upgrader_post_install`.
   */
  datatype Hooks = Hooks(
    preInstall: Option<string>,
    sourceSelection: (string, string) -> Result<string, string>,
    clearDestination: Result<bool, string>,
    postInstall: Option<string>)

  /** The `WP_Error` codes `install_package` returns. */
  datatype InstallError =
    | BadRequest
    | BadPackage
    | RemoveOldFailed
    | FolderExists(path: string)
    | MkdirFailed(path: string)
    | CopyFailed(code: string)
    | HookError(code: string)

  /** A deletion `install_package` performs: the old destination, or the working folder holding the unpacked package. */
  datatype Removal = RemoveOld(path: string) | RemoveWorking(path: string)

  /** The result record of a successful install: the names of `compact(...)` that are set. */
  datatype Installed = Installed(source: string, sourceFiles: seq<string>, destination: string,
                                 destinationName: string, localDestination: string, remoteDestination: string,
                                 clearDestination: bool)

  /** The unpacked package is a single folder, whose contents are what gets installed. */
  predicate SingleFolder(fs: Filesystem, source: string)
  {
    var files := fs.dirlist(source);
    |files| == 1 && fs.isDir(TrailingSlashIt(source) + files[0] + "/")
  }

  /** A destination that must never be cleared itself: one of the base directories, or named like an add-on directory. */
  predicate Protected(destination: string, env: Env)
  {
    || destination in [env.abspath, env.contentDir, env.pluginDir, env.contentDir + "/themes",
                       env.gatewaysDir, env.shippingDir, env.storageDir]
    || Basename(destination) in [Basename(env.gatewaysDir), Basename(env.shippingDir), Basename(env.storageDir)]
  }

  /** The folder name of the add-on directory of each known type. */
  function AddonFolder(kind: string): string
  {
    if kind == "gateway" then "gateways" else if kind == "shipping" then "shipping" else "storage"
  }

  /** The directory of a known type is the folder of that type inside `/shopp`. */
  lemma AddonDirSplit(workingCore: string, kind: string)
    requires kind in {"gateway", "shipping", "storage"}
    ensures workingCore + AddonDir(kind) == (workingCore + "/shopp/") + AddonFolder(kind)
  {
    assert "/shopp/gateways" == "/shopp/" + "gateways";
    assert "/shopp/shipping" == "/shopp/" + "shipping";
    assert "/shopp/storage" == "/shopp/" + "storage";
  }

  /** A core add-on of a known type goes into a protected directory when the host's add-on directories are named like the working core's. */
  lemma CoreAddonProtected(workingCore: string, kind: string, env: Env)
    requires kind in {"gateway", "shipping", "storage"}
    requires Basename(env.gatewaysDir) == "gateways" && Basename(env.shippingDir) == "shipping"
    requires Basename(env.storageDir) == "storage"
    ensures Protected(workingCore + AddonDir(kind), env)
  {
    AddonDirSplit(workingCore, kind);
    BasenameAfterSeparator(workingCore + "/shopp/", AddonFolder(kind));
  }

  // ---------------------------------------------------------------------
  // destination_name
  // ---------------------------------------------------------------------

  /** `basename(str_replace($local_destination, '', $destination))`, with `.` read as no name. */
  function DestinationName(localDestination: string, destination: string): (r: string)
    ensures '/' !in r && r != "."
  {
    var name := Basename(RemoveAll(destination, localDestination));
    if name == "." then "" else name
  }

  /** A destination left as it was names no folder. */
  lemma DestinationNameUnchanged(localDestination: string)
    requires localDestination != []
    ensures DestinationName(localDestination, localDestination) == ""
  {
    RemoveAllPrefix(localDestination, []);
    assert localDestination + [] == localDestination;
  }

  /**
   * A destination extended by the protected-directory rule names the folder
   * appended to it, when the original destination has at most one trailing
   * slash (`sep` is the one `trailingslashit` adds, if any) and does not
   * occur again in what was appended.
   */
  lemma DestinationNameAppended(localDestination: string, sep: string, folder: string)
    requires localDestination != [] && folder != [] && folder != "." && '/' !in folder
    requires sep == [] || sep == "/"
    requires TrailingSlashIt(localDestination) == localDestination + sep
    ensures !Contains(sep + TrailingSlashIt(folder), localDestination) ==>
      DestinationName(localDestination, TrailingSlashIt(localDestination) + TrailingSlashIt(folder)) == folder
  {
    var tf := TrailingSlashIt(folder);
    if !Contains(sep + tf, localDestination) {
      Associative(localDestination, sep, tf);
      FolderBasename(sep, folder);
      NameAfterDestination(localDestination, sep + tf, folder);
    }
  }

  /** The basename of `sep folder/` is `folder`, for a separator that is empty or a single slash. */
  lemma FolderBasename(sep: string, folder: string)
    requires sep == [] || sep == "/"
    requires folder != [] && '/' !in folder
    ensures Basename(sep + TrailingSlashIt(folder)) == folder
  {
    assert Untrailing(folder) == folder by {
      assert folder[|folder| - 1] in folder;
    }
    Associative(sep, folder, "/");
    BasenameAfterSeparator(sep, folder);
  }

  /** Removing the local destination from itself followed by `rest` leaves `rest`, when `rest` does not contain it. */
  lemma NameAfterDestination(localDestination: string, rest: string, folder: string)
    requires localDestination != [] && !Contains(rest, localDestination)
    requires Basename(rest) == folder && folder != "."
    ensures DestinationName(localDestination, localDestination + rest) == folder
  {
    RemoveAllPrefix(localDestination, rest);
    RemoveAllAbsent(rest, localDestination);
  }

  // ---------------------------------------------------------------------
  // install_package
  // ---------------------------------------------------------------------

  /** The source `install_package` copies from before the source filter runs: the single folder's contents, or the package itself. */
  function UnfilteredSource(fs: Filesystem, source: string): string
  {
    if SingleFolder(fs, source) then TrailingSlashIt(source) + TrailingSlashIt(fs.dirlist(source)[0]) else source
  }

  /**
   * A path after the protected-directory rule: when the destination is
   * protected and the source is a folder, the source folder's name is
   * appended to the path (the local or the remote destination).
   */
  function ProtectedDestination(path: string, destination: string, env: Env, sourceIsDir: bool, source: string): string
  {
    if Protected(destination, env) && sourceIsDir then TrailingSlashIt(path) + TrailingSlashIt(Basename(source))
    else path
  }

  /** The source the source filter selects for an unpacked package. */
  function SelectedSource(source0: string, fs: Filesystem, hooks: Hooks): Result<string, string>
  {
    hooks.sourceSelection(UnfilteredSource(fs, source0), source0)
  }

  /** The remote destination once the protected-directory rule has run for the selected source. */
  function RemoteTarget(source0: string, destination0: string, source: string, env: Env, fs: Filesystem): string
  {
    ProtectedDestination(fs.findFolder(destination0), destination0, env, SingleFolder(fs, source0), source)
  }

  /**
   * The source resolution of `install_package` (after the request guard and
   * the pre-install filter): an empty package is refused, a package holding
   * a single folder is installed from inside it, and the source filter may
   * replace the result or raise an error.
   */
  method ResolveSource(source0: string, fs: Filesystem, hooks: Hooks)
    returns (r: Result<(string, bool, seq<string>), InstallError>)
    ensures r == Failure(BadPackage) <==> fs.dirlist(source0) == []
    ensures fs.dirlist(source0) != [] ==> (r.Success? <==> SelectedSource(source0, fs, hooks).Success?)
    ensures r.Failure? && r.error != BadPackage ==> r.error == HookError(SelectedSource(source0, fs, hooks).error)
    ensures r.Success? ==>
      && SelectedSource(source0, fs, hooks) == Success(r.value.0)
      && r.value.1 == SingleFolder(fs, source0)
      && r.value.2 == fs.dirlist(r.value.0)
  {
    var source, remoteSource := source0, source0;
    var sourceIsDir := true;
    var sourceFiles := fs.dirlist(remoteSource);
    if |sourceFiles| == 1 && fs.isDir(TrailingSlashIt(source) + sourceFiles[0] + "/") {
      source := TrailingSlashIt(source) + TrailingSlashIt(sourceFiles[0]);
    } else if |sourceFiles| == 0 {
      return Failure(BadPackage);
    } else {
      sourceIsDir := false;
    }
    var selected := hooks.sourceSelection(source, remoteSource);
    if selected.Failure? {
      return Failure(HookError(selected.error));
    }
    source := selected.value;
    if source != remoteSource {
      sourceFiles := fs.dirlist(source);
    }
    return Success((source, sourceIsDir, sourceFiles));
  }

  /**
   * The error, if any, that clearing or creating the destination folder
   * stops with: the clear-destination filter's error or a failed deletion
   * when the old folder is cleared, a non-empty folder that is not to be
   * cleared, or a failed `mkdir` for a folder that is missing or was cleared.
   */
  function PrepareError(remoteDestination: string, sourceIsDir: bool, clearDestination: bool,
                        fs: Filesystem, hooks: Hooks): (r: Option<InstallError>)
    ensures !sourceIsDir ==> r == None
    ensures r.Some? ==>
      || r.value.HookError? || r.value == RemoveOldFailed
      || r.value == FolderExists(remoteDestination) || r.value == MkdirFailed(remoteDestination)
  {
    if sourceIsDir && fs.isDir(remoteDestination) && clearDestination then
      match hooks.clearDestination
      case Failure(e) => Some(HookError(e))
      case Success(removed) =>
        if !removed then Some(RemoveOldFailed)
        else if !fs.mkdir(remoteDestination) then Some(MkdirFailed(remoteDestination))
        else None
    else if sourceIsDir && fs.isDir(remoteDestination) && fs.dirlist(remoteDestination) != [] then
      Some(FolderExists(remoteDestination))
    else if sourceIsDir && !fs.pathExists(remoteDestination) && !fs.mkdir(remoteDestination) then
      Some(MkdirFailed(remoteDestination))
    else None
  }

  /**
   * Clearing and creating the destination folder: an existing folder is
   * deleted when asked to, and otherwise must be empty (the working folder
   * is deleted before bailing out); a missing folder is created.
   */
  method PrepareDestination(remoteDestination: string, remoteSource: string, sourceIsDir: bool,
                            clearDestination: bool, fs: Filesystem, hooks: Hooks)
    returns (err: Option<InstallError>, deleted: Option<Removal>)
    ensures err == PrepareError(remoteDestination, sourceIsDir, clearDestination, fs, hooks)
    ensures !sourceIsDir ==> err == None && deleted == None
    ensures deleted == Some(RemoveOld(remoteDestination)) <==> sourceIsDir && fs.isDir(remoteDestination) && clearDestination
    ensures deleted == Some(RemoveWorking(remoteSource)) <==> err == Some(FolderExists(remoteDestination))
    ensures deleted == None || deleted == Some(RemoveOld(remoteDestination)) || deleted == Some(RemoveWorking(remoteSource))
    ensures err == Some(FolderExists(remoteDestination))
      <==> sourceIsDir && fs.isDir(remoteDestination) && !clearDestination && fs.dirlist(remoteDestination) != []
    ensures err == Some(RemoveOldFailed)
      <==> sourceIsDir && fs.isDir(remoteDestination) && clearDestination && hooks.clearDestination == Success(false)
    ensures err.Some? && err.value.MkdirFailed? ==> sourceIsDir && !fs.mkdir(remoteDestination)
  {
    deleted := None;
    var present := fs.pathExists(remoteDestination);
    if fs.isDir(remoteDestination) && sourceIsDir {
      if clearDestination {
        deleted := Some(RemoveOld(remoteDestination));
        var removed := hooks.clearDestination;
        if removed.Failure? {
          return Some(HookError(removed.error)), deleted;
        } else if !removed.value {
          return Some(RemoveOldFailed), deleted;
        }
        present := false;
      } else if fs.dirlist(remoteDestination) != [] {
        deleted := Some(RemoveWorking(remoteSource));
        return Some(FolderExists(remoteDestination)), deleted;
      }
    }
    if !present && sourceIsDir {
      if !fs.mkdir(remoteDestination) {
        return Some(MkdirFailed(remoteDestination)), deleted;
      }
    }
    return None, deleted;
  }

  /**
   * The last stage of `install_package`: the copy into place, the name of
   * the installed folder, and the post-install filter.
   */
  method CopyPackage(source: string, sourceFiles: seq<string>, destination: string, localDestination: string,
                     remoteDestination: string, clearDestination: bool, fs: Filesystem, hooks: Hooks)
    returns (r: Result<Installed, InstallError>)
    ensures r.Success? <==> fs.copyDir(source, remoteDestination).None? && hooks.postInstall.None?
    ensures fs.copyDir(source, remoteDestination).Some? ==> r == Failure(CopyFailed(fs.copyDir(source, remoteDestination).value))
    ensures fs.copyDir(source, remoteDestination).None? && hooks.postInstall.Some? ==> r == Failure(HookError(hooks.postInstall.value))
    ensures r.Success? ==> r.value == Installed(source, sourceFiles, destination,
                                                DestinationName(localDestination, destination), localDestination,
                                                remoteDestination, clearDestination)
  {
    var copied := fs.copyDir(source, remoteDestination);
    if copied.Some? {
      return Failure(CopyFailed(copied.value));
    }
    var destinationName := DestinationName(localDestination, destination);
    var result := Installed(source, sourceFiles, destination, destinationName, localDestination,
                            remoteDestination, clearDestination);
    if hooks.postInstall.Some? {
      return Failure(HookError(hooks.postInstall.value));
    }
    return Success(result);
  }

  /** The request passes the guard and the pre-install filter, and the unpacked package is not empty. */
  predicate Listed(source0: string, destination0: string, fs: Filesystem, hooks: Hooks)
  {
    !PhpEmpty(source0) && !PhpEmpty(destination0) && hooks.preInstall.None? && fs.dirlist(source0) != []
  }

  /** Beyond that, the source filter selects a source and the destination folder is ready for the copy. */
  predicate Placed(source0: string, destination0: string, clearDestination: bool, env: Env, fs: Filesystem, hooks: Hooks)
  {
    && Listed(source0, destination0, fs, hooks)
    && SelectedSource(source0, fs, hooks).Success?
    && PrepareError(RemoteTarget(source0, destination0, SelectedSource(source0, fs, hooks).value, env, fs),
                    SingleFolder(fs, source0), clearDestination, fs, hooks) == None
  }

  /**
   * `install_package`. Returns the result record or the error it stops with,
   * together with the deletions it performs, in order.
   */
  method InstallPackage(source0: string, destination0: string, clearDestination: bool, clearWorking: bool,
                        env: Env, fs: Filesystem, hooks: Hooks)
    returns (r: Result<Installed, InstallError>, deleted: seq<Removal>)
    // the request guard
    ensures r == Failure(BadRequest) <==> PhpEmpty(source0) || PhpEmpty(destination0)
    // the pre-install filter
    ensures !PhpEmpty(source0) && !PhpEmpty(destination0) && hooks.preInstall.Some? ==>
      r == Failure(HookError(hooks.preInstall.value))
    // an empty package
    ensures r == Failure(BadPackage)
      <==> !PhpEmpty(source0) && !PhpEmpty(destination0) && hooks.preInstall.None? && fs.dirlist(source0) == []
    // the source filter
    ensures Listed(source0, destination0, fs, hooks) && SelectedSource(source0, fs, hooks).Failure? ==>
      r == Failure(HookError(SelectedSource(source0, fs, hooks).error))
    // clearing and creating the destination
    ensures Listed(source0, destination0, fs, hooks) && SelectedSource(source0, fs, hooks).Success? ==>
      var rd := RemoteTarget(source0, destination0, SelectedSource(source0, fs, hooks).value, env, fs);
      var err := PrepareError(rd, SingleFolder(fs, source0), clearDestination, fs, hooks);
      err.Some? ==> r == Failure(err.value)
    // the copy and the post-install filter
    ensures Placed(source0, destination0, clearDestination, env, fs, hooks) ==>
      var rd := RemoteTarget(source0, destination0, SelectedSource(source0, fs, hooks).value, env, fs);
      var copied := fs.copyDir(SelectedSource(source0, fs, hooks).value, rd);
      && (copied.Some? ==> r == Failure(CopyFailed(copied.value)))
      && (copied.None? && hooks.postInstall.Some? ==> r == Failure(HookError(hooks.postInstall.value)))
    // success
    ensures r.Success? <==>
      && Placed(source0, destination0, clearDestination, env, fs, hooks)
      && fs.copyDir(SelectedSource(source0, fs, hooks).value,
                    RemoteTarget(source0, destination0, SelectedSource(source0, fs, hooks).value, env, fs)).None?
      && hooks.postInstall.None?
    // the source installed from
    ensures r.Success? ==>
      && SelectedSource(source0, fs, hooks) == Success(r.value.source)
      && r.value.sourceFiles == fs.dirlist(r.value.source)
    // the protected-directory rule
    ensures r.Success? ==> r.value.localDestination == destination0 && r.value.clearDestination == clearDestination
    ensures r.Success? ==>
      r.value.destination == ProtectedDestination(destination0, destination0, env, SingleFolder(fs, source0), r.value.source)
    ensures r.Success? ==> r.value.remoteDestination == RemoteTarget(source0, destination0, r.value.source, env, fs)
    ensures r.Success? ==> r.value.destinationName == DestinationName(destination0, r.value.destination)
    // what gets deleted
    ensures Placed(source0, destination0, clearDestination, env, fs, hooks) ==>
      var rd := RemoteTarget(source0, destination0, SelectedSource(source0, fs, hooks).value, env, fs);
      deleted == (if SingleFolder(fs, source0) && fs.isDir(rd) && clearDestination then [RemoveOld(rd)] else [])
                 + (if clearWorking then [RemoveWorking(source0)] else [])
    ensures |deleted| <= 2
    ensures |deleted| >= 1 ==> deleted[|deleted| - 1] == RemoveWorking(source0) || (deleted[0].RemoveOld? && clearDestination)
    ensures r.Success? ==> (clearWorking <==> RemoveWorking(source0) in deleted)
    ensures |deleted| == 2 ==> deleted[0].RemoveOld? && clearDestination && deleted[1] == RemoveWorking(source0)
    ensures r.Failure? && r.error.FolderExists? ==> !clearDestination && deleted == [RemoveWorking(source0)]
    ensures r.Failure? && (r.error.BadRequest? || r.error.BadPackage?) ==> deleted == []
  {
    deleted := [];
    if PhpEmpty(source0) || PhpEmpty(destination0) {
      return Failure(BadRequest), deleted;
    }
    if hooks.preInstall.Some? {
      return Failure(HookError(hooks.preInstall.value)), deleted;
    }
    var remoteSource, localDestination := source0, destination0;
    var remoteDestination := fs.findFolder(localDestination);
    var resolved := ResolveSource(source0, fs, hooks);
    if resolved.Failure? {
      return Failure(resolved.error), deleted;
    }
    var (source, sourceIsDir, sourceFiles) := resolved.value;
    remoteDestination := ProtectedDestination(remoteDestination, destination0, env, sourceIsDir, source);
    var destination := ProtectedDestination(destination0, destination0, env, sourceIsDir, source);
    var err, removed := PrepareDestination(remoteDestination, remoteSource, sourceIsDir, clearDestination, fs, hooks);
    assert removed.Some? && removed.value.RemoveOld? ==> clearDestination;
    if removed.Some? {
      deleted := [removed.value];
    }
    if err.Some? {
      return Failure(err.value), deleted;
    }
    r := CopyPackage(source, sourceFiles, destination, localDestination, remoteDestination, clearDestination, fs, hooks);
    // the working folder is cleared after the copy, whether or not the copy succeeded
    if clearWorking {
      deleted := deleted + [RemoveWorking(remoteSource)];
    }
  }

  // ---------------------------------------------------------------------
  // destination_selector
  // ---------------------------------------------------------------------

  /** `destination_selector`: a destination whose last component mentions `.tmp` is replaced by its parent directory. */
  function DestinationSelector(destination: string): (r: string)
    ensures r == destination <==> !Contains(Basename(destination), ".tmp")
  {
    if Contains(Basename(destination), ".tmp") then
      var r := TrailingSlashIt(Dirname(destination));
      DestinationSelectorCuts(destination);
      r
    else destination
  }

  /**
   * A `.tmp` destination is cut back to its parent: the result ends in `/`;
   * without that slash it is a prefix of the path (trailing slashes aside)
   * followed only by separators and the last component; a path with no `/`
   * becomes `./`.
   */
  lemma DestinationSelectorCuts(destination: string)
    requires Contains(Basename(destination), ".tmp")
    ensures var r := TrailingSlashIt(Dirname(destination));
      var t := Untrailing(destination);
      var b := Basename(destination);
      var p := r[..|r| - 1];
      && |r| < |destination|
      && ('/' !in t ==> r == "./")
      && ('/' in t ==>
            && |p| < |t| - |b| && t[..|p|] == p && t[|t| - |b|..] == b
            && forall i :: |p| <= i < |t| - |b| ==> t[i] == '/')
  {
    var t := Untrailing(destination);
    var b := Basename(destination);
    var d := Dirname(destination);
    var r := TrailingSlashIt(d);
    assert |b| >= 4;
    SplitLastComponent(t);
    if '/' in t {
      DirnameSeparator(destination);
      if d == "/" {
        assert r == "/";
      } else {
        TrailingSlashOfClean(d);
      }
    } else {
      DropLastShape(t);
      assert DropLastComponent(t) == [];
      assert d == ".";
      TrailingSlashOfClean(d);
    }
  }
}
