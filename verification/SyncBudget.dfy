/**
  Disk, page, transfer and materialisation budgets (telemetry/sync_budget.py).

  The file system and the other processes sharing it are an arbitrary script:
  the n-th free-space probe answers `freeAt(n)` and the catalog file has
  `catalogSizeAt(n)` bytes after its n-th commit.
*/
module SyncBudget {
  import opened Results
  import opened SyncErrors
  import opened Tables

  const MAX_SYNC_WORKSPACE_BYTES: nat := 2 * 1024 * 1024 * 1024
  const MAX_SYNC_TRANSFER_BYTES: nat := 4 * 1024 * 1024 * 1024
  const MAX_SYNC_OPERATION_PAGES: nat := 4096
  const MIN_FREE_BYTES: nat := 256 * 1024 * 1024
  const FIXED_OVERHEAD_BYTES: nat := 64 * 1024

  function Min(a: int, b: int): int {
    if a < b then a else b
  }

  function Sum(s: seq<nat>): nat {
    if s == [] then 0 else Sum(s[..|s| - 1]) + s[|s| - 1]
  }

  lemma SumAppend(s: seq<nat>, x: nat)
    ensures Sum(s + [x]) == Sum(s) + x
  {
  }

  // ---------------------------------------------------------------- Workspace

  /** The counters of a `WorkspaceBudget`, and how many free-space probes were made. */
  datatype Workspace = Workspace(maxBytes: nat, maxPages: nat, used: int, pageCount: nat, probes: nat)

  function EnsurePageCapacity(w: Workspace, free: nat -> int, reserved: nat): (Workspace, Option<SyncError>) {
    if w.pageCount + 1 + reserved > w.maxPages || w.used >= w.maxBytes then
      (w, Some(WorkspaceLimit))
    else
      (w.(probes := w.probes + 1), if free(w.probes) <= MIN_FREE_BYTES then Some(WorkspaceLimit) else None)
  }

  function NextPageLimit(w: Workspace, free: nat -> int, requested: nat): (r: (Workspace, Result<nat, SyncError>))
    ensures r.1.Ok? ==> r.1.value <= requested && r.0.pageCount < r.0.maxPages
    ensures r.1.Ok? && requested > FIXED_OVERHEAD_BYTES ==> r.1.value > FIXED_OVERHEAD_BYTES
    ensures r.0 == w.(probes := r.0.probes) && w.probes <= r.0.probes
    ensures r.1.Ok? ==> r.0.probes == w.probes + 2
    ensures r.1.Err? ==> r.1.error == WorkspaceLimit
  {
    var (w1, e) := EnsurePageCapacity(w, free, 0);
    if e.Some? then
      (w1, Err(e.value))
    else
      var available := Min(w.maxBytes - w.used, free(w1.probes) - MIN_FREE_BYTES);
      var w2 := w1.(probes := w1.probes + 1);
      (w2, if available <= FIXED_OVERHEAD_BYTES then Err(WorkspaceLimit) else Ok(Min(requested, available)))
  }

  function ReservePage(w: Workspace, free: nat -> int, size: nat): (r: (Workspace, Option<SyncError>))
    ensures r.1.None? ==>
              && r.0.used == w.used + size <= w.maxBytes
              && r.0.pageCount == w.pageCount + 1 <= w.maxPages
    ensures r.1.Some? ==> r.1.value == WorkspaceLimit && r.0 == w.(probes := r.0.probes)
    ensures r.0.maxBytes == w.maxBytes && r.0.maxPages == w.maxPages && w.probes <= r.0.probes
  {
    var (w1, e) := EnsurePageCapacity(w, free, 0);
    if e.Some? then
      (w1, e)
    else if w.used + size > w.maxBytes then
      (w1, Some(WorkspaceLimit))
    else
      var w2 := w1.(probes := w1.probes + 1);
      if free(w1.probes) - size < MIN_FREE_BYTES then
        (w2, Some(WorkspaceLimit))
      else
        (w2.(used := w.used + size, pageCount := w.pageCount + 1), None)
  }

  // -------------------------------------------------------------- File system

  datatype Directory = InventoryDirectory | DataDirectory

  /** The workspace directory at rest: lock file, catalog and spooled pages. */
  class Disk {
    const freeAt: nat -> int
    const catalogSizeAt: nat -> nat
    const otherBytes: nat
    var probes: nat
    var commits: nat
    var catalogBytes: nat
    var inventory: seq<nat>
    var data: seq<nat>

    constructor (freeAt: nat -> int, catalogSizeAt: nat -> nat, otherBytes: nat)
      ensures this.freeAt == freeAt && this.catalogSizeAt == catalogSizeAt && this.otherBytes == otherBytes
      ensures probes == 0 && commits == 0 && catalogBytes == 0 && inventory == [] && data == []
    {
      this.freeAt, this.catalogSizeAt, this.otherBytes := freeAt, catalogSizeAt, otherBytes;
      probes, commits, catalogBytes, inventory, data := 0, 0, 0, [], [];
    }

    /** What a rescan of the directory adds up. */
    function Size(): nat
      reads this
    {
      otherBytes + catalogBytes + Sum(inventory) + Sum(data)
    }

    method ProbeFree() returns (free: int)
      modifies this`probes
      ensures free == freeAt(old(probes)) && probes == old(probes) + 1
    {
      free := freeAt(probes);
      probes := probes + 1;
    }

    method CommitCatalog()
      modifies this`commits, this`catalogBytes
      ensures commits == old(commits) + 1 && catalogBytes == catalogSizeAt(old(commits))
    {
      catalogBytes := catalogSizeAt(commits);
      commits := commits + 1;
    }

    method WritePage(directory: Directory, size: nat)
      modifies this`inventory, this`data
      ensures inventory == if directory.InventoryDirectory? then old(inventory) + [size] else old(inventory)
      ensures data == if directory.DataDirectory? then old(data) + [size] else old(data)
      ensures Size() == old(Size()) + size
    {
      match directory {
        case InventoryDirectory =>
          SumAppend(inventory, size);
          inventory := inventory + [size];
        case DataDirectory =>
          SumAppend(data, size);
          data := data + [size];
      }
    }

    method RemoveInventory()
      modifies this`inventory
      ensures inventory == []
    {
      inventory := [];
    }
  }

  class WorkspaceBudget {
    const disk: Disk
    const maxBytes: nat
    const maxPages: nat
    var usedBytes: int
    var pageCount: nat
    var trackedCatalogBytes: nat

    constructor (disk: Disk, maxBytes: nat := MAX_SYNC_WORKSPACE_BYTES, maxPages: nat := MAX_SYNC_OPERATION_PAGES)
      ensures this.disk == disk && this.maxBytes == maxBytes && this.maxPages == maxPages
      ensures usedBytes == disk.Size() && pageCount == 0 && trackedCatalogBytes == 0
    {
      this.disk, this.maxBytes, this.maxPages := disk, maxBytes, maxPages;
      usedBytes, pageCount, trackedCatalogBytes := disk.Size(), 0, 0;
    }

    ghost function View(): Workspace
      reads this, disk
    {
      Workspace(maxBytes, maxPages, usedBytes, pageCount, disk.probes)
    }

    /** The incremental total equals a rescan. */
    ghost predicate Accounted()
      reads this, disk
    {
      usedBytes == disk.Size() && trackedCatalogBytes == disk.catalogBytes
    }

    method TrackCatalog()
      modifies this`trackedCatalogBytes
      ensures trackedCatalogBytes == disk.catalogBytes
    {
      trackedCatalogBytes := disk.catalogBytes;
    }

    /** Called after every catalog commit: re-establishes the rescan equality. */
    method RefreshCatalog()
      modifies this`usedBytes, this`trackedCatalogBytes
      ensures usedBytes == old(usedBytes) + disk.catalogBytes - old(trackedCatalogBytes)
      ensures trackedCatalogBytes == disk.catalogBytes
    {
      usedBytes := usedBytes + disk.catalogBytes - trackedCatalogBytes;
      trackedCatalogBytes := disk.catalogBytes;
    }

    method Release(size: int) returns (e: Option<SyncError>)
      modifies this`usedBytes
      ensures e == if 0 <= size <= old(usedBytes) then None else Some(InvalidRelease)
      ensures usedBytes == if e.None? then old(usedBytes) - size else old(usedBytes)
    {
      if size < 0 || size > usedBytes {
        return Some(InvalidRelease);
      }
      usedBytes := usedBytes - size;
      return None;
    }

    method EnsureCapacity(reserved: nat) returns (e: Option<SyncError>)
      modifies disk`probes
      ensures old(disk.probes) <= disk.probes
      ensures (View(), e) == EnsurePageCapacity(old(View()), disk.freeAt, reserved)
      ensures e.None? <==> && pageCount + 1 + reserved <= maxPages && usedBytes < maxBytes
                           && disk.freeAt(old(disk.probes)) > MIN_FREE_BYTES
    {
      if pageCount + 1 + reserved > maxPages {
        return Some(WorkspaceLimit);
      }
      if usedBytes >= maxBytes {
        return Some(WorkspaceLimit);
      }
      var free := disk.ProbeFree();
      if free <= MIN_FREE_BYTES {
        return Some(WorkspaceLimit);
      }
      return None;
    }

    method NextPageMaterializationLimit(requested: nat) returns (r: Result<nat, SyncError>)
      modifies disk`probes
      ensures old(disk.probes) <= disk.probes
      ensures (View(), r) == NextPageLimit(old(View()), disk.freeAt, requested)
      ensures var workspace, free := maxBytes - usedBytes, disk.freeAt(old(disk.probes) + 1) - MIN_FREE_BYTES;
              && (r.Ok? <==> && pageCount + 1 <= maxPages && disk.freeAt(old(disk.probes)) > MIN_FREE_BYTES
                             && workspace > FIXED_OVERHEAD_BYTES && free > FIXED_OVERHEAD_BYTES)
              && (r.Ok? ==> && r.value <= requested && r.value <= workspace && r.value <= free
                            && (r.value == requested || r.value == workspace || r.value == free))
    {
      var e := EnsureCapacity(0);
      if e.Some? {
        return Err(e.value);
      }
      var free := disk.ProbeFree();
      var available := Min(maxBytes - usedBytes, free - MIN_FREE_BYTES);
      if available <= FIXED_OVERHEAD_BYTES {
        return Err(WorkspaceLimit);
      }
      return Ok(Min(requested, available));
    }

    /** `_write_raw_page`: debit the budget, then create the file. */
    method WriteRawPage(directory: Directory, size: nat) returns (e: Option<SyncError>)
      modifies this`usedBytes, this`pageCount, disk`probes, disk`inventory, disk`data
      ensures old(disk.probes) <= disk.probes
      ensures (View(), e) == ReservePage(old(View()), disk.freeAt, size)
      ensures e.None? <==> && old(pageCount) + 1 <= maxPages && old(usedBytes) < maxBytes && old(usedBytes) + size <= maxBytes
                           && disk.freeAt(old(disk.probes)) > MIN_FREE_BYTES
                           && disk.freeAt(old(disk.probes) + 1) - size >= MIN_FREE_BYTES
      ensures old(Accounted()) ==> Accounted()
      ensures disk.inventory == old(disk.inventory) + if e.None? && directory.InventoryDirectory? then [size] else []
      ensures disk.data == old(disk.data) + if e.None? && directory.DataDirectory? then [size] else []
    {
      e := EnsureCapacity(0);
      if e.Some? {
        return;
      }
      if usedBytes + size > maxBytes {
        return Some(WorkspaceLimit);
      }
      var free := disk.ProbeFree();
      if free - size < MIN_FREE_BYTES {
        return Some(WorkspaceLimit);
      }
      usedBytes := usedBytes + size;
      pageCount := pageCount + 1;
      disk.WritePage(directory, size);
    }

    method EnsureWithinLimit() returns (e: Option<SyncError>)
      modifies disk`probes
      ensures e.None? <==> usedBytes <= maxBytes && disk.freeAt(old(disk.probes)) >= MIN_FREE_BYTES
      ensures e.Some? ==> e.value == WorkspaceLimit
    {
      if usedBytes > maxBytes {
        return Some(WorkspaceLimit);
      }
      var free := disk.ProbeFree();
      if free < MIN_FREE_BYTES {
        return Some(WorkspaceLimit);
      }
      return None;
    }
  }

  // ------------------------------------------------- Transfer, materialisation

  class TransferBudget {
    const maxBytes: nat
    var attemptedBytes: nat

    constructor (maxBytes: nat := MAX_SYNC_TRANSFER_BYTES)
      ensures this.maxBytes == maxBytes && attemptedBytes == 0
    {
      this.maxBytes, attemptedBytes := maxBytes, 0;
    }

    method Debit(size: nat) returns (e: Option<SyncError>)
      modifies this
      ensures e == if old(attemptedBytes) + size <= maxBytes then None else Some(WorkspaceLimit)
      ensures attemptedBytes == old(attemptedBytes) + if e.None? then size else 0
    {
      if attemptedBytes + size > maxBytes {
        return Some(WorkspaceLimit);
      }
      attemptedBytes := attemptedBytes + size;
      return None;
    }
  }

  /** Estimated memory of one page's closure, debited before any row is loaded. */
  class MaterializationBudget {
    const maxBytes: nat
    var estimatedBytes: nat

    constructor (maxBytes: nat)
      ensures this.maxBytes == maxBytes && estimatedBytes == FIXED_OVERHEAD_BYTES
    {
      this.maxBytes, estimatedBytes := maxBytes, FIXED_OVERHEAD_BYTES;
    }

    method Reserve(payload: int, rows: int) returns (ok: bool)
      modifies this
      ensures var extra := (if payload < 0 then 0 else payload) + (if rows < 0 then 0 else rows) * ROW_OVERHEAD_BYTES;
              && ok == (old(estimatedBytes) + extra <= maxBytes)
              && estimatedBytes == old(estimatedBytes) + if ok then extra else 0
    {
      var extra := (if payload < 0 then 0 else payload) + (if rows < 0 then 0 else rows) * ROW_OVERHEAD_BYTES;
      if estimatedBytes + extra > maxBytes {
        return false;
      }
      estimatedBytes := estimatedBytes + extra;
      return true;
    }
  }
}
