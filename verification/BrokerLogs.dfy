/**
 The broker's view of a partition log is what the files do: whatever append_durable makes of a batch, on any disk the
 writer can leave behind, is one of the fates the broker allows it.
 */
module BrokerLogs {
  import opened Bytes
  import opened PartitionLog
  import opened PartitionStore
  import opened Wrappers
  import TxnBroker
  import TxnCoordinator

  /** The broker's partition p is this log: its records, whether the next frame would be lost, and its index's length. */
  ghost predicate Shows(s: TxnBroker.Store<bytes>, p: TxnCoordinator.Part, limit: nat, d: Disk, layout: Layout,
                        starts: seq<nat>)
    requires Writable(d) && layout != []
  {
    && TxnBroker.Log(s, p) == Flat(layout)
    && (p in s.torn <==> !Ready(d, layout, limit))
    && TxnBroker.Length(s, p) == |starts|
  }

  lemma {:induction false} ScanLength(crc: Crc, d: Disk, layout: Layout)
    requires IsCrc(crc) && OnDisk(crc, d, layout)
    ensures |Scan(crc, d.segments)| == |Flat(layout)|
  {
    hide IsCrc, Holding, Scan, Index, Flat;
    ScanFindsAll(crc, d.segments, layout);
  }

  /** append_durable refines the broker's append. */
  lemma {:induction false} AppendDurableRefines(crc: Crc, limit: nat, d: Disk, layout: Layout, starts: seq<nat>,
                                                sealed: seq<bytes>, fault: Option<Fault>, synced: bool, rescanned: bool,
                                                s: TxnBroker.Store<bytes>, p: TxnCoordinator.Part)
    returns (after: Layout, fate: TxnBroker.Fate)
    requires IsCrc(crc) && limit >= 1 && OnDisk(crc, d, layout) && Shows(s, p, limit, d, layout, starts)
    requires Last(layout).tail != [] ==> Rejected(crc, Last(layout), sealed)
    ensures var o := AppendAll(crc, limit, d, sealed, 0, fault, []);
            var ok := !o.failed && synced;
            var index := if ok then starts + o.offsets else if rescanned then Scan(crc, o.disk.segments) else starts;
            && TxnBroker.Possible(p in s.torn, |sealed|, fate) && fate.ok == ok
            && OnDisk(crc, o.disk, after) && after != []
            && Shows(TxnBroker.Append(s, p, sealed, fate), p, limit, o.disk, after, index)
  {
    hide IsCrc, OnDisk, Rejected, AppendAll, Scan, Flat, Ready;
    OnDiskWritable(crc, d, layout);
    var lost;
    after, lost := BatchAnywhere(crc, limit, d, layout, sealed, fault);
    var o := AppendAll(crc, limit, d, sealed, 0, fault, []);
    ScanLength(crc, o.disk, after);
    fate := TxnBroker.Fate(lost, |o.offsets|, !Ready(o.disk, after, limit), !o.failed && synced, rescanned);
  }
}
