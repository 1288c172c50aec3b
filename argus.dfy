/**
 * Attaching to and detaching from the publisher's segment (`Argus_Init`,
 * `Argus_Deinit`). Each operating-system call is an input: the handle or
 * view it returns, or `None` when it fails.
 */
module ArgusApi {
  import opened Wrappers

  /** An operating-system handle (file mapping or mutex). */
  datatype Handle = Handle(id: nat)

  /** The address of a mapped view of the segment. */
  datatype View = View(address: nat)

  /** A release call issued to the operating system. */
  datatype OsRelease = CloseHandle(handle: Handle) | UnmapViewOfFile(view: View)

  /** All three acquisitions of an attach succeed. */
  predicate AttachSucceeds(openFile: Option<Handle>, mapView: Option<View>, openMutex: Option<Handle>)
  {
    openFile.Some? && mapView.Some? && openMutex.Some?
  }

  /** The releases `Argus_Deinit` issues for the given fields: mutex, then view, then mapping. */
  function ReleaseCalls(file: Option<Handle>, data: Option<View>, dataMutex: Option<Handle>): (r: seq<OsRelease>)
    ensures |r| <= 3
    ensures (dataMutex.Some? && data.Some? && file.Some?) ==>
      r == [CloseHandle(dataMutex.value), UnmapViewOfFile(data.value), CloseHandle(file.value)]
    ensures (file.None? && data.None? && dataMutex.None?) <==> r == []
  {
    (if dataMutex.Some? then [CloseHandle(dataMutex.value)] else []) +
    (if data.Some? then [UnmapViewOfFile(data.value)] else []) +
    (if file.Some? then [CloseHandle(file.value)] else [])
  }

  /**
   * What an attach that fails partway has acquired, in release order: the
   * view (when the mapping and the view were obtained) and the mapping.
   */
  function AcquiredBeforeFailure(openFile: Option<Handle>, mapView: Option<View>): seq<OsRelease>
  {
    (if openFile.Some? && mapView.Some? then [UnmapViewOfFile(mapView.value)] else []) +
    (if openFile.Some? then [CloseHandle(openFile.value)] else [])
  }

  /** The plugin's connection to the segment. */
  class ArgusState {
    var initialized: bool
    var file: Option<Handle>
    var data: Option<View>
    var dataMutex: Option<Handle>
    /** Every release call issued through this state so far. */
    ghost var released: seq<OsRelease>

    /** The zero value `{}`: nothing held. */
    predicate Detached()
      reads this
    {
      !initialized && file.None? && data.None? && dataMutex.None?
    }

    /** Fully attached: all three resources held. */
    predicate Attached()
      reads this
    {
      initialized && file.Some? && data.Some? && dataMutex.Some?
    }

    /** Outside `Init` and `Deinit` the state is never partly attached. */
    ghost predicate Valid()
      reads this
    {
      Detached() || Attached()
    }

    constructor ()
      ensures Detached() && released == []
    {
      initialized, file, data, dataMutex := false, None, None, None;
      released := [];
    }

    /**
     * Opens the mapping, maps the view, opens the mutex. Any failure runs
     * the deferred `Deinit`, so a failed attach leaves the state at its
     * zero value and releases what it had acquired.
     */
    method Init(openFile: Option<Handle>, mapView: Option<View>, openMutex: Option<Handle>) returns (success: bool)
      modifies this
      ensures Valid()
      ensures success <==> AttachSucceeds(openFile, mapView, openMutex)
      ensures success ==> Attached() && file == openFile && data == mapView && dataMutex == openMutex
      ensures success ==> released == old(released)
      ensures !success ==> Detached()
      ensures !success && old(Detached()) ==>
        released == old(released) + AcquiredBeforeFailure(openFile, mapView)
    {
      success := false;
      file := openFile;
      if file.Some? {
        if mapView.Some? {
          data := mapView;
          dataMutex := openMutex;
          if dataMutex.Some? {
            initialized := true;
            success := true;
          }
        }
      }
      // the deferred cleanup, run on every exit path
      if !success {
        Deinit();
      }
    }

    /**
     * Releases whatever is held, tolerating null fields, and resets the
     * state to its zero value; on a detached state it issues nothing.
     */
    method Deinit()
      modifies this
      ensures Detached()
      ensures released == old(released) + ReleaseCalls(old(file), old(data), old(dataMutex))
      ensures old(Detached()) ==> released == old(released)
    {
      if dataMutex.Some? {
        released := released + [CloseHandle(dataMutex.value)];
      }
      if data.Some? {
        released := released + [UnmapViewOfFile(data.value)];
      }
      if file.Some? {
        released := released + [CloseHandle(file.value)];
      }
      initialized, file, data, dataMutex := false, None, None, None;
    }
  }

  /**
   * Detaching twice releases nothing the second time. A proof harness, not
   * a member of the plugin: a fact about two calls of a method that changes
   * state is stated by a method that makes them.
   */
  method DeinitIsIdempotent(s: ArgusState)
    modifies s
    ensures s.Detached()
    ensures s.released == old(s.released) + ReleaseCalls(old(s.file), old(s.data), old(s.dataMutex))
  {
    s.Deinit();
    s.Deinit();
  }
}
