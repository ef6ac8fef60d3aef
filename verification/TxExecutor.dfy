/**
 The source's object that executes one transaction, over state trackers: execution/tx_executer.go.
 */
module TxExecutors {
  import opened Options
  import opened ByteStrings
  import opened StateTrackers
  import opened TxExecution
  import opened ChaincodeMeaning

  /** The executor with its trackers: `txTrk` spawned from the block's tracker, the others from `txTrk`. */
  class TxExecutor {
    const tx: Tx
    const rootTrk: StateTracker
    const txTrk: StateTracker
    const regTrk: StateTracker
    const codeTrk: StateTracker
    var hist: History

    ghost predicate Valid()
      reads rootTrk
    {
      && rootTrk.Valid() && rootTrk.base == null && rootTrk.View() == Root(rootTrk.changes)
      && txTrk.Valid() && txTrk.base == rootTrk && txTrk.keyPrefix == []
      && regTrk.Valid() && regTrk.base == txTrk
      && codeTrk.Valid() && codeTrk.base == txTrk && codeTrk != regTrk
    }

    ghost function State(error: Option<string>): Exec
      reads this, txTrk, regTrk, codeTrk
    {
      Exec(hist, regTrk.View(), codeTrk.View(), txTrk.View(), error)
    }

    constructor (tx: Tx, rootTrk: StateTracker)
      requires rootTrk.Valid() && rootTrk.base == null && rootTrk.View() == Root(rootTrk.changes)
      ensures Valid() && State(None) == NewExec(tx) && this.tx == tx && this.rootTrk == rootTrk
      ensures fresh(this) && fresh(txTrk) && fresh(regTrk) && fresh(codeTrk)
    {
      this.tx, this.rootTrk, hist := tx, rootTrk, [];
      var top := rootTrk.Spawn([]);
      var reg := top.Spawn(CODE_REGISTRY_ADDR);
      var code := top.Spawn(tx.addr);
      txTrk, regTrk, codeTrk := top, reg, code;
    }

    /** A write changes its key in the tracker it is made through, and nothing else. */
    ghost predicate Written(a: Action, before: map<Bytes, Value>, trk: StateTracker, child: Child)
      requires a.Set?
      reads trk
    {
      trk.changes == if a.child == child then before[trk.keyPrefix + a.key := a.value] else before
    }

    method Get(child: Child, key: Bytes)
      requires Valid()
      modifies this, regTrk, codeTrk, txTrk, rootTrk`dependencies
      ensures Valid() && rootTrk.View() == old(rootTrk.View())
      ensures var x := old(State(None));
        var stack := [x.Pick(child), x.top, old(rootTrk.View())];
        var after := AfterRead(stack, key);
        State(None) == x.Put(child, after[0]).(hist := x.hist + [Read(stack, rootTrk.store, key)], top := after[1])
    {
      var trk := if child.Registry? then regTrk else codeTrk;
      assert txTrk.Stack() == [txTrk.View(), rootTrk.View()];
      assert trk.Stack() == [trk.View(), txTrk.View(), rootTrk.View()];
      ReadThree(trk.View(), txTrk.View(), rootTrk.changes, rootTrk.store, key);
      var value := trk.GetState(key);
      assert txTrk.Stack() == [txTrk.View(), rootTrk.View()];
      assert trk.Stack() == [trk.View(), txTrk.View(), rootTrk.View()];
      hist := hist + [value];
    }

    method SetState(child: Child, key: Bytes, value: Value)
      requires Valid()
      modifies this, regTrk`changes, codeTrk`changes
      ensures Valid()
      ensures var x := old(State(None));
        State(None) == x.Put(child, x.Pick(child).SetState(key, value)).(hist := x.hist + [None])
    {
      var trk := if child.Registry? then regTrk else codeTrk;
      trk.SetState(key, value);
      hist := hist + [None];
    }

    method Finish()
      requires Valid()
      modifies txTrk`changes
      ensures Valid()
      ensures var x := old(State(None));
        State(Some("")) ==
          x.(top := Merged(if tx.deploy then Merged(x.top, x.reg) else x.top, x.code), error := Some(""))
    {
      if tx.deploy {
        txTrk.Merge(regTrk);
      }
      txTrk.Merge(codeTrk);
    }

    /** One action of the chaincode; the error once it has ended. */
    method Perform() returns (error: Option<string>)
      requires Valid()
      modifies this, regTrk, codeTrk, txTrk, rootTrk`dependencies
      ensures Valid() && rootTrk.View() == old(rootTrk.View())
      ensures State(error) == Act(tx, old(State(None)), rootTrk.changes, rootTrk.store)
      ensures var a := tx.program(old(hist));
        && (a.Get? || a.Set? <==> error.None?)
        && (a.Set? ==> hist == old(hist) + [None] && txTrk.changes == old(txTrk.changes))
        && (a.Set? ==> Written(a, old(regTrk.changes), regTrk, Registry))
        && (a.Set? ==> Written(a, old(codeTrk.changes), codeTrk, Code))
        && (a.Get? ==> regTrk.changes == old(regTrk.changes) && codeTrk.changes == old(codeTrk.changes))
    {
      match tx.program(hist)
      case Get(child, key) =>
        Get(child, key);
        error := None;
      case Set(child, key, value) =>
        SetState(child, key, value);
        error := None;
      case Finish =>
        Finish();
        error := Some("");
      case Fail(err) => error := Some(err);
    }

    /** One more action of an undisturbed execution. */
    method PerformNext(ghost n: nat) returns (error: Option<string>)
      requires Valid() && State(None) == Run(tx, rootTrk.changes, rootTrk.store, n)
      modifies this, regTrk, codeTrk, txTrk, rootTrk`dependencies
      ensures Valid() && rootTrk.View() == old(rootTrk.View())
      ensures State(error) == Run(tx, rootTrk.changes, rootTrk.store, n + 1)
    {
      error := Perform();
    }

    /**
     execution/tx_executer.go:76-112, undisturbed by other transactions, for chaincode that ends on the
     state it is given, within `bound` actions.
     */
    method ExecuteChaincode(ghost bound: nat) returns (error: string, ghost n: nat)
      requires Valid() && State(None) == NewExec(tx)
      requires Run(tx, rootTrk.changes, rootTrk.store, bound).error.Some?
      modifies this, regTrk, codeTrk, txTrk, rootTrk`dependencies
      ensures rootTrk.View() == old(rootTrk.View())
      ensures State(Some(error)) == Run(tx, rootTrk.changes, rootTrk.store, n)
      ensures State(Some(error)) == Run(tx, rootTrk.changes, rootTrk.store, bound)
      ensures forall j :: 0 <= j < |hist| ==> Answered(tx, hist, j, rootTrk.changes, rootTrk.store)
      ensures match tx.program(hist)
        case Finish => error == "" && HoldsWrites(tx, hist, txTrk.changes)
        case Fail(message) => error == message && txTrk.changes == map[]
        case _ => false
    {
      n := 0;
      var ended: Option<string> := None;
      while ended.None?
        invariant Valid() && rootTrk.View() == old(rootTrk.View())
        invariant State(ended) == Run(tx, rootTrk.changes, rootTrk.store, n)
        invariant n <= bound
        decreases ended.None?, bound - n
      {
        if n == bound {
          assert false;
        }
        ended := PerformNext(n);
        n := n + 1;
      }
      error := ended.value;
      RunStays(tx, rootTrk.changes, rootTrk.store, n, bound);
      AloneMeans(tx, rootTrk.changes, rootTrk.store, n);
    }
  }
}
