/** The buffer as the service holds it: shared fields that goroutines change one step at a time. */
module AuditService {
  import opened AuditBuffer

  class Tier2Buffer {
    const size: nat
    const batchSize: nat
    var ch: seq<Entry>
    var closed: bool
    var dropped: nat
    var failures: nat
    var workers: seq<Worker>
    ghost var written: nat
    ghost var offered: seq<Entry>
    ghost var accepted: seq<Entry>
    ghost var refused: seq<Entry>
    ghost var owners: seq<nat>

    ghost function View(): Buffer
      reads this
    {
      Buffer(size, batchSize, ch, closed, dropped, written, failures, workers, offered, accepted, refused, owners)
    }

    /** Nothing offered has gone missing, and every worker holds its share in order. */
    ghost predicate Valid()
      reads this
    {
      Inv(View())
    }

    /** StartBuffer: defaults for whatever is not positive, then the workers. */
    constructor (cfg: Config)
      ensures Valid() && View() == Started(cfg)
      ensures size == (if cfg.size > 0 then cfg.size else 4096) && batchSize == (if cfg.batchSize > 0 then cfg.batchSize else 64)
      ensures |workers| == (if cfg.workers > 0 then cfg.workers else 2) && ch == [] && dropped == 0
    {
      size := if cfg.size <= 0 then 4096 else cfg.size;
      batchSize := if cfg.batchSize <= 0 then 64 else cfg.batchSize;
      var count: nat := if cfg.workers <= 0 then 2 else cfg.workers;
      ch, closed, dropped, failures := [], false, 0, 0;
      workers := seq(count, _ => Worker([], Selecting, []));
      written, offered, accepted, refused, owners := 0, [], [], [], [];
      new;
      StartedInv(cfg);
    }

    method Offer(e: Entry)
      requires Valid() && Enabled(View(), Enqueue(e))
      modifies this
      ensures Valid() && View() == Step(old(View()), Enqueue(e))
      ensures |ch| <= size && |offered| == |accepted| + dropped
      ensures old(|ch|) < size ==> ch == old(ch) + [e] && accepted == old(accepted) + [e] && dropped == old(dropped)
      ensures old(|ch|) == size ==> ch == old(ch) && accepted == old(accepted) && dropped == old(dropped) + 1
    {
      DroppedIff(View(), e);
      StepKeepsInv(View(), Enqueue(e));
      offered := offered + [e];
      if |ch| < size {
        ch := ch + [e];
        accepted := accepted + [e];
      } else {
        dropped := dropped + 1;
        refused := refused + [e];
      }
    }

    /** An entry comes out of the channel; a full batch is flushed at once. */
    method EntryReceived(w: nat)
      requires Valid() && Enabled(View(), Receive(w))
      modifies this
      ensures Valid() && View() == Step(old(View()), Receive(w))
      ensures w < |workers| && workers[w].batch == old(workers[w].batch) + [old(ch[0])] && ch == old(ch)[1..]
      ensures 1 <= |workers[w].batch| <= batchSize
      ensures workers[w].stage == if |workers[w].batch| == batchSize then Writing(false) else Selecting
    {
      FlushedIff(View(), Receive(w), w);
      StepKeepsInv(View(), Receive(w));
      var e := ch[0];
      ch := ch[1..];
      owners := owners + [w];
      var me := workers[w];
      me := me.(batch := me.batch + [e]);
      if |me.batch| >= batchSize {
        me := me.(stage := Writing(false));
      }
      workers := workers[w := me];
      assert WorkerInv(View(), w);
    }

    method ClosedSeen(w: nat)
      requires Valid() && Enabled(View(), SeeClosed(w))
      modifies this`workers
      ensures Valid() && View() == Step(old(View()), SeeClosed(w))
      ensures w < |workers| && workers[w].stage == if old(workers[w].batch) == [] then Gone else Writing(true)
    {
      FlushedIff(View(), SeeClosed(w), w);
      StepKeepsInv(View(), SeeClosed(w));
      if workers[w].batch == [] {
        workers := workers[w := workers[w].(stage := Gone)];
      } else {
        workers := workers[w := workers[w].(stage := Writing(true))];
      }
    }

    method Ticked(w: nat)
      requires Valid() && Enabled(View(), Tick(w))
      modifies this`workers
      ensures Valid() && View() == Step(old(View()), Tick(w))
      ensures w < |workers| && workers[w].stage == if old(workers[w].batch) == [] then Selecting else Writing(false)
    {
      FlushedIff(View(), Tick(w), w);
      StepKeepsInv(View(), Tick(w));
      FlushOnTick(w);
    }

    method FlushOnTick(w: nat)
      requires Enabled(View(), Tick(w))
      modifies this`workers
      ensures View() == Step(old(View()), Tick(w))
    {
      if workers[w].batch != [] {
        workers := workers[w := workers[w].(stage := Writing(false))];
      }
    }

    /** flush after its write: the batch is emptied whatever the write said, and every accepted entry stays accounted for. */
    method WriteReturned(w: nat, ok: bool)
      requires Valid() && Enabled(View(), WriteReturns(w, ok))
      modifies this
      ensures Valid() && View() == Step(old(View()), WriteReturns(w, ok))
      ensures |accepted| == |ch| + Held(workers) + written + failures
      ensures w < |workers| && workers[w].batch == []
      ensures written == old(written) + (if ok then old(|workers[w].batch|) else 0)
      ensures failures == old(failures) + (if ok then 0 else old(|workers[w].batch|))
    {
      WriteCounts(View(), w, ok);
      StepKeepsInv(View(), WriteReturns(w, ok));
      SettleBatch(w, ok);
    }

    method SettleBatch(w: nat, ok: bool)
      requires Enabled(View(), WriteReturns(w, ok))
      modifies this
      ensures View() == Step(old(View()), WriteReturns(w, ok))
    {
      var me := workers[w];
      if ok {
        written := written + |me.batch|;
      } else {
        failures := failures + |me.batch|;
      }
      workers := workers[w := Worker([], if me.stage.last then Gone else Selecting, me.handed + [me.batch])];
    }

    method CloseChannel()
      requires Valid()
      modifies this`closed
      ensures Valid() && View() == Step(old(View()), Close)
    {
      StepKeepsInv(View(), Close);
      if !closed {
        closed := true;
      }
    }
  }
}
