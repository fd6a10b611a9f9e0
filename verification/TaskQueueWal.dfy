/**
  The append-only log: every operation runs with the lock file held, a record is
  framed and written at the end of the active file, the file is rotated when the
  next record would make it too long, and recovery truncates a torn tail.
*/
module TaskQueueWal {
  import opened Basics
  import opened Crc32c
  import opened WalFormat
  import M = QueueModel

  /** The attempt to log a payload: refused exactly when it is too long, the lock file is there, or a rotation that
      is due fails; otherwise one frame more at the end of the active file, the old segment archived if it was full. */
  predicate Logged(config: M.WalConfig, before: M.Disk, after: M.Disk, payload: Bytes, now: int, done: bool) {
    var rotates := |before.active| + |payload| + 8 > config.maxWalBytes;
    && (done <==> |payload| < 0x1_0000_0000 && !before.lockFile && !(rotates && config.failRotation))
    && if !done then after == before
       else
         && after.active == (if rotates then [] else before.active) + Encode(payload)
         && after.archives == (if rotates then before.archives[now := before.active] else before.archives)
         && (config.financial ==> after.synced == |after.active|) && !after.lockFile
  }

  class TaskQueueWal {
    const config: M.WalConfig
    const table: array<Register>
    var disk: M.Disk

    ghost predicate Valid()
      reads this, table
    {
      IsTable(table[..]) && disk.synced <= |disk.active|
    }

    constructor (config: M.WalConfig, disk: M.Disk)
      requires disk.synced <= |disk.active|
      ensures Valid() && fresh(table)
      ensures this.config == config && this.disk == disk
    {
      var t := BuildTable();
      this.config, this.table, this.disk := config, t, disk;
    }

    /** Append one record: either nothing changes and the reason is returned, or exactly
        one frame is added at the end of the (possibly fresh) active file. */
    method Enqueue(payload: Bytes, now: int) returns (r: M.Result<WalRecord, M.WalError>)
      requires Valid()
      modifies this`disk
      ensures Valid()
      ensures var refusal := M.Refusal(config, old(disk), payload);
        match refusal
        case Some(e) => r == M.Err(e) && disk == old(disk)
        case None =>
          && disk == M.Appended(config, old(disk), payload, now)
          && r == M.Ok(WalRecord(payload, |M.Prepared(config, old(disk), payload, now).active|, |payload| + 8))
      ensures Logged(config, old(disk), disk, payload, now, r.Ok?)
    {
      if |payload| >= LENGTH_LIMIT {
        return M.Err(M.PayloadTooLong);
      }
      var encoded := EncodeRecord(payload);
      if disk.lockFile {
        return M.Err(M.LockTimeout);
      }
      disk := disk.(lockFile := true);
      var rotated := RotateIfNeeded(|encoded|, now);
      if rotated.Err? {
        disk := disk.(lockFile := false);
        return M.Err(rotated.error);
      }
      var offset := |disk.active|;
      disk := disk.(active := disk.active + encoded);
      if config.financial {
        disk := disk.(synced := |disk.active|);
      }
      disk := disk.(lockFile := false);
      r := M.Ok(WalRecord(payload, offset, |encoded|));
    }

    method EncodeRecord(payload: Bytes) returns (frame: Bytes)
      requires Valid() && |payload| < LENGTH_LIMIT
      ensures frame == Encode(payload)
    {
      var crc := TableChecksum(table, payload);
      frame := LengthBytes(|payload|) + payload + CrcBytes(crc);
    }

    method RotateIfNeeded(nextRecordBytes: nat, now: int) returns (r: M.Result<(), M.WalError>)
      requires Valid()
      modifies this`disk
      ensures Valid()
      ensures !M.MustRotate(config, old(disk), nextRecordBytes) ==> r.Ok? && disk == old(disk)
      ensures M.MustRotate(config, old(disk), nextRecordBytes) ==>
        if config.failRotation then r == M.Err(M.RotationFault) && disk == old(disk)
        else
          && r.Ok? && disk.active == [] && disk.synced == 0 && disk.lockFile == old(disk.lockFile)
          && disk.archives == old(disk.archives)[now := old(disk.active)]
    {
      if |disk.active| + nextRecordBytes <= config.maxWalBytes {
        return M.Ok(());
      }
      if config.failRotation {
        return M.Err(M.RotationFault);
      }
      disk := disk.(archives := disk.archives[now := disk.active]);
      disk := disk.(active := [], synced := 0);
      r := M.Ok(());
    }

    /** Read back every record of the active file and cut the file to them. */
    method RecoverAndRead() returns (r: M.Result<seq<WalRecord>, M.WalError>)
      requires Valid()
      modifies this`disk
      ensures Valid()
      ensures old(disk.lockFile) ==> r == M.Err(M.LockTimeout) && disk == old(disk)
      ensures !old(disk.lockFile) ==>
        && r.Ok? && Payloads(r.value) == Scan(old(disk.active)) && Placed(r.value)
        && disk == M.Truncated(old(disk))
        && disk.active == Stream(Scan(old(disk.active))) && disk.active <= old(disk.active)
        && disk.synced == (if old(disk.synced) < |disk.active| then old(disk.synced) else |disk.active|)
        && disk.archives == old(disk.archives) && !disk.lockFile
    {
      if disk.lockFile {
        return M.Err(M.LockTimeout);
      }
      disk := disk.(lockFile := true);
      var data := disk.active;
      var records, validBytes := ParseRecords(table, data);
      ScanTiles(data);
      if validBytes < |data| {
        disk := disk.(active := data[..validBytes], synced := if disk.synced < validBytes then disk.synced else validBytes);
      }
      disk := disk.(lockFile := false);
      r := M.Ok(records);
    }
  }
}
