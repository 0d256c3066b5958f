/**
 * The resource state object (packages/core/src/resource-state.ts and
 * packages/core/src/resource-publish-transport.ts): arrays written in place, one of which holds for
 * each index the eight numbers that the original spreads over parallel typed arrays.
 */
module ResourceStates {
  import opened Wrappers
  import opened Counting
  import opened ResourceRows
  import T = ResourceTracking

  const UNSET := -1
  const VISITED := -2

  datatype Error = InvalidIndex | InvalidInput | OutOfOrder

  class PublishBuffer {
    const rows: array<Row>
    const dirtyIndices: array<nat>
    var dirtyCount: nat

    constructor (initial: seq<Row>)
      ensures fresh(rows) && fresh(dirtyIndices) && rows[..] == initial
      ensures dirtyIndices.Length == |initial| && dirtyCount == 0
    {
      rows := new Row[|initial|](i requires 0 <= i < |initial| => initial[i]);
      dirtyIndices := new nat[|initial|];
      dirtyCount := 0;
    }
  }

  class ResourceState {
    const precision: Precision
    const live: array<Row>
    const scratch: array<nat>
    const positions: array<int>
    const first: PublishBuffer
    const second: PublishBuffer
    var activePublishIndex: nat
    var dirtyIndexCount: nat
    var guard: T.Guard

    ghost function Repr(): set<object> {
      {this, live, scratch, positions, first, first.rows, first.dirtyIndices, second, second.rows, second.dirtyIndices}
    }

    function Active(): PublishBuffer
      reads this
    {
      if activePublishIndex == 0 then first else second
    }

    function Standby(): PublishBuffer
      reads this
    {
      if activePublishIndex == 0 then second else first
    }

    /** No two arrays of the object are the same array, and all have one length. */
    ghost predicate Layout()
      reads this, first, second
    {
      && first != second
      && live != first.rows && live != second.rows && first.rows != second.rows
      && scratch != first.dirtyIndices && scratch != second.dirtyIndices && first.dirtyIndices != second.dirtyIndices
      && live.Length == scratch.Length == positions.Length
      && live.Length == first.rows.Length == first.dirtyIndices.Length
      && live.Length == second.rows.Length == second.dirtyIndices.Length
      && first.dirtyCount <= live.Length && second.dirtyCount <= live.Length
      && activePublishIndex <= 1
    }

    ghost function State(): T.State
      requires Layout()
      reads this, first, second, Repr()
    {
      T.State(live[..], scratch[..], positions[..], dirtyIndexCount,
              Active().rows[..], Active().dirtyIndices[..Active().dirtyCount], Standby().rows[..], guard)
    }

    ghost predicate Valid()
      reads this, first, second, Repr()
    {
      Layout() && T.Good(precision, State())
    }

    constructor (precision: Precision, definitions: seq<Row>)
      requires PrecisionOk(precision) && forall i | 0 <= i < |definitions| :: ToleranceOk(precision, definitions[i])
      ensures Valid() && fresh(Repr())
      ensures this.precision == precision && State() == T.Initial(definitions)
    {
      this.precision := precision;
      var n := |definitions|;
      var bare := seq(n, i requires 0 <= i < n => Bare(definitions[i]));
      live := new Row[n](i requires 0 <= i < n => bare[i]);
      scratch := new nat[n](_ => 0);
      positions := new int[n](_ => UNSET);
      first := new PublishBuffer(bare);
      second := new PublishBuffer(bare);
      activePublishIndex, dirtyIndexCount, guard := 0, 0, T.Idle;
      new;
      assert fresh(Repr());
      assert Layout();
      assert State() == T.Initial(definitions) by {
        assert live[..] == bare;
      }
      T.InitialIsGood(precision, definitions);
    }

    method MarkDirty(index: nat)
      requires Layout() && T.Shape(State()) && index < live.Length
      requires T.Listed(State(), index) || dirtyIndexCount < live.Length
      modifies live, scratch, positions, this`dirtyIndexCount
      ensures Layout() && State() == T.MarkDirty(old(State()), index)
    {
      var currentPosition := positions[index];
      live[index] := live[index].(flags := live[index].flags.(dirty := true));
      assert live[..] == old(live[..])[index := live[index]];
      if currentPosition >= 0 {
        return;
      }
      var position := dirtyIndexCount;
      scratch[position] := index;
      positions[index] := position;
      dirtyIndexCount := dirtyIndexCount + 1;
      assert scratch[..] == old(scratch[..])[position := index];
      assert positions[..] == old(positions[..])[index := position];
    }

    /** Moves the last listed index into the place of the removed one. */
    method SwapRemove(index: nat)
      requires Layout() && index < positions.Length && 0 <= positions[index] < dirtyIndexCount <= scratch.Length
      requires scratch[dirtyIndexCount - 1] < positions.Length
      modifies scratch, positions, this`dirtyIndexCount
      ensures var (position, swapIndex) := (old(positions[index]), old(scratch[dirtyIndexCount - 1]));
              && scratch[..] == old(scratch[..])[position := swapIndex]
              && positions[..] == old(positions[..])[swapIndex := position][index := UNSET]
      ensures dirtyIndexCount == old(dirtyIndexCount) - 1
    {
      var position, swapIndex := positions[index], scratch[dirtyIndexCount - 1];
      scratch[position] := swapIndex;
      positions[swapIndex] := position;
      positions[index] := UNSET;
      dirtyIndexCount := dirtyIndexCount - 1;
    }

    /** Takes an index off the dirty list by moving the last listed index into its place. */
    method Unmark(index: nat)
      requires Layout() && index < live.Length && dirtyIndexCount <= live.Length
      requires T.Listed(State(), index) ==>
                 && positions[index] < dirtyIndexCount
                 && scratch[dirtyIndexCount - 1] < live.Length
      modifies live, scratch, positions, this`dirtyIndexCount
      ensures Layout() && State() == T.Unmark(old(State()), index)
    {
      var position := positions[index];
      if position >= 0 {
        SwapRemove(index);
      }
      live[index] := Bare(live[index]);
      assert live[..] == old(live[..])[index := live[index]];
    }

    method UnmarkIfClean(index: nat)
      requires Layout() && T.Shape(State()) && T.SparseSet(State()) && index < live.Length
      modifies live, scratch, positions, this`dirtyIndexCount
      ensures Layout() && State() == T.UnmarkIfClean(precision, old(State()), index)
    {
      if RowClean(precision, live[index], Active().rows[index]) {
        assert T.Listed(State(), index) ==> positions[index] < dirtyIndexCount;
        Unmark(index);
      }
    }

    method StoreAndReconcile(index: nat, row: Row, near: bool)
      requires Layout() && index < live.Length
      requires var stored := T.WithLive(State(), index, row);
               T.Shape(stored) && T.SparseSet(stored) && (T.Listed(stored, index) || dirtyIndexCount < live.Length)
      modifies live, scratch, positions, this`dirtyIndexCount
      ensures Layout()
      ensures var stored := T.WithLive(old(State()), index, row);
              State() ==
              if near
              then T.UnmarkIfClean(precision, stored, index) else T.MarkDirty(stored, index)
    {
      live[index] := row;
      assert live[..] == old(live[..])[index := row];
      assert State() == T.WithLive(old(State()), index, row);
      if near {
        UnmarkIfClean(index);
      } else {
        MarkDirty(index);
      }
    }

    /** Stores a row in place, then marks or unmarks its index. */
    method WriteRow(index: nat, row: Row, near: bool)
      requires Valid() && index < live.Length
      requires row.flags.dirty == live[index].flags.dirty && ToleranceOk(precision, row)
      requires near && InSync(precision, live[index], Active().rows[index])
           ==> InSync(precision, row, Active().rows[index])
      requires near && T.RatesShown(precision, live[index], Active().rows[index])
           ==> T.RatesShown(precision, row, Active().rows[index])
      modifies live, scratch, positions, this`dirtyIndexCount
      ensures Layout() && State() == T.WriteRow(precision, old(State()), index, row, near)
      ensures T.Wrote(precision, old(State()), State(), index, row)
      ensures !near ==> T.Listed(State(), index)
    {
      ghost var s := State();
      T.StoredKeepsSets(precision, s, index, row);
      T.WriteRowIsSound(precision, s, index, row, near);
      T.MarkDirtyIsGood(precision, T.WithLive(s, index, row), index);
      StoreAndReconcile(index, row, near);
    }

    /** Writes one field, if it changes, given the row that results and whether the field agrees. */
    method WriteField(index: nat, row: Row, near: bool)
      requires Valid() && index < live.Length
      requires row.flags.dirty == live[index].flags.dirty && ToleranceOk(precision, row)
      requires near && InSync(precision, live[index], Active().rows[index])
           ==> InSync(precision, row, Active().rows[index])
      requires near && T.RatesShown(precision, live[index], Active().rows[index])
           ==> T.RatesShown(precision, row, Active().rows[index])
      modifies live, scratch, positions, this`dirtyIndexCount
      ensures Layout() && T.Wrote(precision, old(State()), State(), index, row)
    {
      if live[index] == row {
        T.Unchanged(precision, State(), index);
        return;
      }
      WriteRow(index, row, near);
    }

    method AccumulateTickDelta(index: nat, delta: real)
      requires Valid() && index < live.Length
      modifies live, scratch, positions, this`dirtyIndexCount
      ensures Layout() && T.Wrote(precision, old(State()), State(), index,
                                  WithDelta(precision, old(live[index]), delta))
    {
      var row := WithDelta(precision, live[index], delta);
      WriteField(index, row, Near(precision, row.tickDelta, Active().rows[index].tickDelta, row.tolerance));
    }

    method WriteAmount(index: nat, amount: real)
      requires Valid() && index < live.Length
      modifies live, scratch, positions, this`dirtyIndexCount
      ensures Layout() && T.Wrote(precision, old(State()), State(), index, old(live[index]).(amount := amount))
    {
      var row := live[index].(amount := amount);
      WriteField(index, row, Near(precision, amount, Active().rows[index].amount, row.tolerance));
    }

    /** Writes an amount and accounts for the difference in the tick delta. */
    method MoveAmount(index: nat, amount: real)
      requires Valid() && index < live.Length
      modifies live, scratch, positions, this`dirtyIndexCount
      ensures Layout() && T.Wrote(precision, old(State()), State(), index, MovedTo(precision, old(live[index]), amount))
    {
      ghost var s, row, target := State(), live[index].(amount := amount), MovedTo(precision, live[index], amount);
      var delta := amount - live[index].amount;
      WriteAmount(index, amount);
      ghost var t := State();
      T.WroteValue(precision, s, t, index, row, index);
      ghost var next := WithDelta(precision, live[index], delta);
      AccumulateTickDelta(index, delta);
      T.WroteTwice(precision, s, t, State(), index, row, next, target);
    }

    /** Adds what the capacity admits and returns it. */
    method Credit(index: nat, amount: real) returns (applied: real)
      requires Valid() && index < live.Length
      modifies live, scratch, positions, this`dirtyIndexCount
      ensures Layout() && T.Wrote(precision, old(State()), State(), index, Added(precision, old(live[index]), amount))
      ensures applied == old(live[index].capacity.Clamp(live[index].amount + amount) - live[index].amount)
    {
      var previousAmount := live[index].amount;
      var clampedAmount := live[index].capacity.Clamp(previousAmount + amount);
      applied := clampedAmount - previousAmount;
      MoveAmount(index, clampedAmount);
    }

    method AddAmount(index: int, amount: real) returns (r: Result<real, Error>)
      requires Valid()
      modifies live, scratch, positions, this`dirtyIndexCount
      ensures Valid() && T.Stepped(precision, old(State()), State(), T.Add(index, amount))
      ensures if !(0 <= index < live.Length) then r == Err(InvalidIndex)
              else if amount < 0.0 then r == Err(InvalidInput)
              else r == Ok(live[index].amount - old(live[index].amount))
      ensures r.Ok? ==> T.Effect(precision, old(live[index]), live[index], T.Add(index, amount))
    {
      ghost var s := State();
      if !(0 <= index < live.Length) {
        return Err(InvalidIndex);
      }
      if amount < 0.0 {
        return Err(InvalidInput);
      }
      var applied := Credit(index, amount);
      T.WriteHasEffect(precision, s, State(), T.Add(index, amount));
      return Ok(applied);
    }

    /** Takes an amount if there is enough of it. */
    method Debit(index: nat, amount: real) returns (enough: bool)
      requires Valid() && index < live.Length
      modifies live, scratch, positions, this`dirtyIndexCount
      ensures Layout() && T.Wrote(precision, old(State()), State(), index, Spent(precision, old(live[index]), amount))
      ensures enough == (old(live[index].amount) >= amount)
    {
      var currentAmount := live[index].amount;
      if currentAmount < amount {
        T.Unchanged(precision, State(), index);
        return false;
      }
      MoveAmount(index, currentAmount - amount);
      return true;
    }

    method SpendAmount(index: int, amount: real) returns (r: Result<bool, Error>)
      requires Valid()
      modifies live, scratch, positions, this`dirtyIndexCount
      ensures Valid() && T.Stepped(precision, old(State()), State(), T.Spend(index, amount))
      ensures if !(0 <= index < live.Length) then r == Err(InvalidIndex)
              else if amount < 0.0 then r == Err(InvalidInput)
              else r == Ok(old(live[index].amount) >= amount)
      ensures r.Ok? ==> T.Effect(precision, old(live[index]), live[index], T.Spend(index, amount))
    {
      ghost var s := State();
      if !(0 <= index < live.Length) {
        return Err(InvalidIndex);
      }
      if amount < 0.0 {
        return Err(InvalidInput);
      }
      var enough := Debit(index, amount);
      T.WriteHasEffect(precision, s, State(), T.Spend(index, amount));
      return Ok(enough);
    }

    method WriteCapacity(index: nat, capacity: Capacity)
      requires Valid() && index < live.Length
      modifies live, scratch, positions, this`dirtyIndexCount
      ensures Layout() && T.Wrote(precision, old(State()), State(), index, old(live[index]).(capacity := capacity))
    {
      var row := live[index].(capacity := capacity);
      WriteField(index, row, NearCapacity(precision, capacity, Active().rows[index].capacity, row.tolerance));
    }

    /** An amount above the new capacity is moved down to it. */
    method Resize(index: nat, capacity: Capacity)
      requires Valid() && index < live.Length
      modifies live, scratch, positions, this`dirtyIndexCount
      ensures Layout() && T.Wrote(precision, old(State()), State(), index,
                                  Resized(precision, old(live[index]), capacity))
    {
      var currentAmount := live[index].amount;
      ghost var s, row, target := State(), live[index].(capacity := capacity),
          Resized(precision, live[index], capacity);
      WriteCapacity(index, capacity);
      if !capacity.Admits(currentAmount) {
        ghost var t := State();
        T.WroteValue(precision, s, t, index, row, index);
        ghost var moved := MovedTo(precision, live[index], capacity.limit);
        T.MovedIgnoresDirtyBit(precision, live[index], row, capacity.limit);
        MoveAmount(index, capacity.limit);
        T.WroteTwice(precision, s, t, State(), index, row, moved, target);
      }
    }

    method SetCapacity(index: int, capacity: Capacity) returns (r: Result<Capacity, Error>)
      requires Valid()
      modifies live, scratch, positions, this`dirtyIndexCount
      ensures Valid() && T.Stepped(precision, old(State()), State(), T.SetCap(index, capacity))
      ensures if !(0 <= index < live.Length) then r == Err(InvalidIndex)
              else if capacity.Finite? && capacity.limit < 0.0 then r == Err(InvalidInput)
              else r == Ok(capacity)
      ensures r.Ok? ==> T.Effect(precision, old(live[index]), live[index], T.SetCap(index, capacity))
    {
      ghost var s := State();
      if !(0 <= index < live.Length) {
        return Err(InvalidIndex);
      }
      if capacity.Finite? && capacity.limit < 0.0 {
        return Err(InvalidInput);
      }
      r := Ok(capacity);
      Resize(index, capacity);
      T.WriteHasEffect(precision, s, State(), T.SetCap(index, capacity));
    }

    method SetDirtyTolerance(index: int, value: real) returns (r: Result<real, Error>)
      requires Valid() && PrecisionOk(precision)
      modifies live, scratch, positions, this`dirtyIndexCount
      ensures Valid() && T.Stepped(precision, old(State()), State(), T.SetTol(index, value))
      ensures if !(0 <= index < live.Length) then r == Err(InvalidIndex)
              else r == Ok(live[index].tolerance)
      ensures r.Ok? ==> T.Effect(precision, old(live[index]), live[index], T.SetTol(index, value))
    {
      ghost var s := State();
      if !(0 <= index < live.Length) {
        return Err(InvalidIndex);
      }
      var tolerance := ClampTolerance(precision, value);
      WriteField(index, live[index].(tolerance := tolerance), false);
      T.WriteHasEffect(precision, s, State(), T.SetTol(index, value));
      return Ok(tolerance);
    }

    method WriteNet(index: nat)
      requires Valid() && index < live.Length
      modifies live, scratch, positions, this`dirtyIndexCount
      ensures Layout() && T.Wrote(precision, old(State()), State(), index, Netted(old(live[index])))
    {
      var row := Netted(live[index]);
      WriteField(index, row, Near(precision, row.net, Active().rows[index].net, row.tolerance));
    }

    method WriteRate(index: nat, rate: real, field: RateField)
      requires Valid() && index < live.Length
      modifies live, scratch, positions, this`dirtyIndexCount
      ensures Layout() && T.Wrote(precision, old(State()), State(), index, WithRate(old(live[index]), rate, field))
    {
      var row := WithRate(live[index], rate, field);
      var published := Active().rows[index];
      var near := if field == Income then Near(precision, row.income, published.income, row.tolerance)
                  else Near(precision, row.expense, published.expense, row.tolerance);
      WriteField(index, row, near);
    }

    method RaiseRate(index: nat, rate: real, field: RateField)
      requires Valid() && index < live.Length
      modifies live, scratch, positions, this`dirtyIndexCount
      ensures Layout() && T.Wrote(precision, old(State()), State(), index, Rated(old(live[index]), rate, field))
    {
      ghost var s, row, target := State(), WithRate(live[index], rate, field), Rated(live[index], rate, field);
      WriteRate(index, rate, field);
      ghost var t := State();
      T.WroteValue(precision, s, t, index, row, index);
      ghost var netted := Netted(live[index]);
      WriteNet(index);
      T.WroteTwice(precision, s, t, State(), index, row, netted, target);
    }

    method ApplyRate(index: int, rate: real, field: RateField) returns (r: Result<(), Error>)
      requires Valid()
      modifies live, scratch, positions, this`dirtyIndexCount
      ensures Valid() && T.Stepped(precision, old(State()), State(), T.Rate(index, rate, field))
      ensures r == if !(0 <= index < live.Length) then Err(InvalidIndex)
                   else if rate < 0.0 then Err(InvalidInput) else Ok(())
      ensures r.Ok? ==> T.Effect(precision, old(live[index]), live[index], T.Rate(index, rate, field))
    {
      ghost var s := State();
      if !(0 <= index < live.Length) {
        return Err(InvalidIndex);
      }
      if rate < 0.0 {
        return Err(InvalidInput);
      }
      if rate == 0.0 {
        T.Unchanged(precision, State(), index);
      } else {
        RaiseRate(index, rate, field);
      }
      T.WriteHasEffect(precision, s, State(), T.Rate(index, rate, field));
      return Ok(());
    }

    method SetFlag(index: int, name: T.FlagName, on: bool) returns (r: Result<(), Error>)
      requires Valid() && PrecisionOk(precision)
      modifies live, scratch, positions, this`dirtyIndexCount
      ensures Valid() && T.Stepped(precision, old(State()), State(), T.Flag(index, name, on))
      ensures r == if !(0 <= index < live.Length) then Err(InvalidIndex) else Ok(())
      ensures r.Ok? ==> T.Effect(precision, old(live[index]), live[index], T.Flag(index, name, on))
    {
      ghost var s := State();
      if !(0 <= index < live.Length) {
        return Err(InvalidIndex);
      }
      var row := T.WithFlag(live[index], name, on);
      var near := Near(precision, row.flags.Code(), Active().rows[index].flags.Code(), row.tolerance);
      assert near && FlagsSafe(precision) ==> SameFlags(row, Active().rows[index]);
      WriteField(index, row, near);
      T.WriteHasEffect(precision, s, State(), T.Flag(index, name, on));
      return Ok(());
    }

    /** One iteration of `finalizeTick`. */
    method FinalizeOne(index: nat, deltaMs: real)
      requires Valid() && index < live.Length
      modifies live, scratch, positions, this`dirtyIndexCount
      ensures Layout() && T.Wrote(precision, old(State()), State(), index,
                                  Finalized(precision, old(live[index]), deltaMs))
      ensures T.Shown(precision, State(), index)
    {
      ghost var s, target := State(), Finalized(precision, live[index], deltaMs);
      var next := FinalAmount(live[index], deltaMs);
      ghost var movedRow := MovedTo(precision, live[index], next);
      MoveAmount(index, next);
      ghost var moved := State();
      T.WroteValue(precision, s, moved, index, movedRow, index);
      ghost var netted := Netted(live[index]);
      WriteNet(index);
      T.WroteTwice(precision, s, moved, State(), index, movedRow, netted, target);
      if !T.RatesNear(precision, live[index], Active().rows[index]) {
        ghost var rolled := State();
        T.WroteValue(precision, s, rolled, index, target, index);
        ghost var row := live[index];
        WriteRow(index, live[index], false);
        T.WroteTwice(precision, s, rolled, State(), index, target, row, target);
      }
    }

    /** The loop of `finalizeTick`. */
    method FinalizeAll(deltaMs: real)
      requires Valid()
      modifies live, scratch, positions, this`dirtyIndexCount
      ensures Layout() && T.FinalizedSoFar(precision, old(State()), State(), deltaMs, live.Length)
    {
      ghost var s := State();
      for index := 0 to live.Length
        invariant Layout() && T.FinalizedSoFar(precision, s, State(), deltaMs, index)
      {
        ghost var t := State();
        FinalizeOne(index, deltaMs);
        T.FinalizeOneAdvances(precision, s, t, State(), deltaMs, index);
      }
    }

    method FinalizeTick(deltaMs: real) returns (r: Result<(), Error>)
      requires Valid() && PrecisionOk(precision)
      modifies live, scratch, positions, this`dirtyIndexCount, this`guard
      ensures Valid() && T.Stepped(precision, old(State()), State(), T.Finalize(deltaMs))
      ensures r == if deltaMs < 0.0 then Err(InvalidInput) else Ok(())
    {
      if deltaMs < 0.0 {
        return Err(InvalidInput);
      }
      ghost var s := State();
      FinalizeAll(deltaMs);
      ghost var t := State();
      guard := T.AwaitingPublish;
      assert t == State().(guard := s.guard);
      T.StepKeepsGood(precision, s, State(), T.Finalize(deltaMs));
      return Ok(());
    }

    method ResetRows()
      requires Layout()
      modifies live
      ensures Layout() && State().(guard := T.Idle) == T.ResetPerTick(old(State()))
    {
      ghost var s := State();
      for index := 0 to live.Length
        invariant forall j | 0 <= j < live.Length :: live[j] == if j < index then T.ResetRow(s.live[j]) else s.live[j]
      {
        live[index] := T.ResetRow(live[index]);
      }
      assert live[..] == T.ResetPerTick(s).live;
    }

    method ResetPerTickAccumulators() returns (r: Result<(), Error>)
      requires Valid() && PrecisionOk(precision)
      modifies live, this`guard
      ensures Valid() && T.Stepped(precision, old(State()), State(), T.Reset)
      ensures r == if old(guard) != T.Published then Err(OutOfOrder) else Ok(())
    {
      if guard != T.Published {
        return Err(OutOfOrder);
      }
      ResetRows();
      guard := T.Idle;
      assert State() == T.ResetPerTick(old(State()));
      T.StepKeepsGood(precision, old(State()), State(), T.Reset);
      return Ok(());
    }

    // ----- publishing

    /** `visitIndex` over a list of indices: each is noted once and loses its tick delta in the target. */
    method VisitAll(indices: array<nat>, count: nat, target: PublishBuffer, seen: seq<nat>) returns (visited: seq<nat>)
      requires Layout() && target == Standby() && count <= indices.Length
      requires indices == scratch || indices == Active().dirtyIndices
      requires forall k | 0 <= k < count :: indices[k] < live.Length
      requires forall k | 0 <= k < |seen| :: seen[k] < live.Length
      requires forall i | 0 <= i < live.Length :: positions[i] == VISITED <==> i in seen
      modifies positions, target.rows
      ensures forall k | 0 <= k < |visited| :: visited[k] < live.Length
      ensures forall i | 0 <= i < live.Length :: i in visited <==> i in seen || i in indices[..count]
      ensures forall i | 0 <= i < live.Length ::
                positions[i] == if i in indices[..count] then VISITED else old(positions[i])
      ensures forall i | 0 <= i < live.Length ::
                target.rows[i] == if i !in seen && i in indices[..count] then old(target.rows[i]).(tickDelta := 0.0)
                                  else old(target.rows[i])
    {
      visited := seen;
      for k := 0 to count
        invariant forall j | 0 <= j < |visited| :: visited[j] < live.Length
        invariant forall i | 0 <= i < live.Length :: i in visited <==> i in seen || i in indices[..k]
        invariant forall i | 0 <= i < live.Length ::
                    positions[i] == if i in indices[..k] then VISITED else old(positions[i])
        invariant forall i | 0 <= i < live.Length ::
                    target.rows[i] == if i !in seen && i in indices[..k] then old(target.rows[i]).(tickDelta := 0.0)
                                      else old(target.rows[i])
      {
        var index := indices[k];
        assert indices[..k + 1] == indices[..k] + [index];
        if positions[index] != VISITED {
          visited := visited + [index];
          positions[index] := VISITED;
          target.rows[index] := target.rows[index].(tickDelta := 0.0);
        }
      }
    }

    /** Brings the standby buffer up to the active one at the indices the last publish changed. */
    method CatchUp(source: PublishBuffer, target: PublishBuffer)
      requires Layout() && source == Active() && target == Standby()
      requires forall k | 0 <= k < source.dirtyCount :: source.dirtyIndices[k] < live.Length
      modifies target.rows
      ensures forall i | 0 <= i < live.Length ::
                target.rows[i] == if i in source.dirtyIndices[..source.dirtyCount]
                                  then Bare(source.rows[i]).(tickDelta := old(target.rows[i].tickDelta))
                                  else old(target.rows[i])
    {
      for k := 0 to source.dirtyCount
        invariant forall i | 0 <= i < live.Length ::
                    target.rows[i] == if i in source.dirtyIndices[..k]
                                      then Bare(source.rows[i]).(tickDelta := old(target.rows[i].tickDelta))
                                      else old(target.rows[i])
      {
        var index := source.dirtyIndices[k];
        assert source.dirtyIndices[..k + 1] == source.dirtyIndices[..k] + [index];
        target.rows[index] := Bare(source.rows[index]).(tickDelta := target.rows[index].tickDelta);
      }
    }

    /** Publishes one listed index if its live row differs from the active buffer. */
    method PublishIfDirty(index: nat, source: PublishBuffer, target: PublishBuffer, count: nat) returns (next: nat)
      requires Layout() && source == Active() && target == Standby() && index < live.Length && count < live.Length
      modifies target.rows, target.dirtyIndices
      ensures var changed := if RowClean(precision, live[index], source.rows[index]) then [] else [index];
              && next == count + |changed|
              && target.dirtyIndices[..next] == old(target.dirtyIndices[..count]) + changed
              && forall i | 0 <= i < live.Length ::
                   target.rows[i] == if i == index && changed != [] then Bare(live[i]) else old(target.rows[i])
    {
      next := count;
      if !RowClean(precision, live[index], source.rows[index]) {
        target.rows[index] := Bare(live[index]);
        target.dirtyIndices[count] := index;
        next := count + 1;
      }
    }

    /** The arrays that a publish reads are those of `s`. */
    ghost predicate Sources(s: T.State, source: PublishBuffer)
      reads this, live, scratch, source.rows
    {
      && T.Sized(s) && s.count == dirtyIndexCount
      && s.live == live[..] && s.scratch == scratch[..] && s.published == source.rows[..]
      && forall k | 0 <= k < s.count :: scratch[k] < live.Length
    }

    /** The first `k` listed indices were handled: those that changed are listed and copied. */
    ghost predicate Processed(target: PublishBuffer, s: T.State, before: seq<Row>, count: nat, k: nat)
      requires T.Sized(s) && k <= s.count
      reads target, target.rows, target.dirtyIndices
    {
      && |before| == |s.live| == target.rows.Length == target.dirtyIndices.Length
      && count <= k && target.dirtyIndices[..count] == T.Changed(precision, s, k)
      && forall i | 0 <= i < target.rows.Length ::
           target.rows[i] == if i in T.Changed(precision, s, k) then Bare(s.live[i]) else before[i]
    }

    method PublishListed(k: nat, source: PublishBuffer, target: PublishBuffer, ghost s: T.State, ghost before: seq<Row>,
                         count: nat)
      returns (next: nat)
      requires Layout() && source == Active() && target == Standby()
      requires Sources(s, source) && k < s.count
      requires Processed(target, s, before, count, k)
      modifies target.rows, target.dirtyIndices
      ensures Processed(target, s, before, next, k + 1)
    {
      var index := scratch[k];
      assert index == s.scratch[k] && live[index] == s.live[index] && source.rows[index] == s.published[index];
      next := PublishIfDirty(index, source, target, count);
      forall i | 0 <= i < target.rows.Length
        ensures target.rows[i] == if i in T.Changed(precision, s, k + 1) then Bare(s.live[i]) else before[i]
      {
        T.ChangedOneMore(precision, s, k, i);
      }
    }

    /** Copies the live rows that differ from the active buffer and lists their indices in the target. */
    method ProcessCurrentDirtyIndices(source: PublishBuffer, target: PublishBuffer, ghost s: T.State)
      returns (nextDirtyCount: nat)
      requires Layout() && source == Active() && target == Standby()
      requires Sources(s, source) && T.Good(precision, s)
      modifies target.rows, target.dirtyIndices
      ensures nextDirtyCount <= live.Length
      ensures forall i: nat | i < live.Length ::
                i in target.dirtyIndices[..nextDirtyCount]
                <==> T.Listed(s, i) && T.Differs(precision, live[i], source.rows[i])
      ensures target.dirtyIndices[..nextDirtyCount] == T.Changed(precision, s, s.count)
      ensures forall i | 0 <= i < live.Length ::
                target.rows[i] == if i in T.Changed(precision, s, s.count) then Bare(live[i]) else old(target.rows[i])
    {
      nextDirtyCount := 0;
      ghost var before := target.rows[..];
      for k := 0 to dirtyIndexCount
        invariant Sources(s, source) && Processed(target, s, before, nextDirtyCount, k)
      {
        nextDirtyCount := PublishListed(k, source, target, s, before, nextDirtyCount);
      }
      forall i: nat | i < live.Length
        ensures i in T.Changed(precision, s, s.count)
           <==> T.Listed(s, i) && T.Differs(precision, live[i], source.rows[i])
      {
        T.PublishedIff(precision, s, i);
      }
    }

    /** Resets the positions of the visited indices and clears their dirty bits. */
    method ClearVisited(visited: seq<nat>, target: PublishBuffer)
      requires Layout() && target == Standby()
      requires forall k | 0 <= k < |visited| :: visited[k] < live.Length
      modifies positions, live, target.rows
      ensures forall i | 0 <= i < live.Length :: positions[i] == if i in visited then UNSET else old(positions[i])
      ensures forall i | 0 <= i < live.Length :: live[i] == if i in visited then Bare(old(live[i])) else old(live[i])
      ensures forall i | 0 <= i < live.Length ::
                target.rows[i] == if i in visited then Bare(old(target.rows[i])) else old(target.rows[i])
    {
      for k := 0 to |visited|
        invariant forall i | 0 <= i < live.Length ::
                    && positions[i] == (if i in visited[..k] then UNSET else old(positions[i]))
                    && live[i] == (if i in visited[..k] then Bare(old(live[i])) else old(live[i]))
                    && target.rows[i] == (if i in visited[..k] then Bare(old(target.rows[i])) else old(target.rows[i]))
      {
        var index := visited[k];
        assert visited[..k + 1] == visited[..k] + [index];
        positions[index] := UNSET;
        live[index] := Bare(live[index]);
        target.rows[index] := Bare(target.rows[index]);
      }
      assert visited[..|visited|] == visited;
    }

    /** Visits both dirty lists. */
    method VisitBoth(source: PublishBuffer, target: PublishBuffer, ghost s: T.State) returns (visited: seq<nat>)
      requires Valid() && s == State() && source == Active() && target == Standby()
      modifies positions, target.rows
      ensures forall k | 0 <= k < |visited| :: visited[k] < live.Length
      ensures forall i | 0 <= i < live.Length :: i in visited <==> T.Listed(s, i) || i in s.publishedDirty
      ensures forall i | 0 <= i < live.Length && i !in visited :: positions[i] == s.positions[i]
      ensures forall i | 0 <= i < live.Length :: target.rows[i] == Visited(s, i)
      ensures forall k | 0 <= k < source.dirtyCount :: source.dirtyIndices[k] < live.Length
      ensures forall k | 0 <= k < dirtyIndexCount :: scratch[k] < live.Length
    {
      forall k | 0 <= k < source.dirtyCount
        ensures source.dirtyIndices[k] < live.Length
      {
        assert s.publishedDirty[k] < |s.live|;
      }
      forall k | 0 <= k < dirtyIndexCount
        ensures scratch[k] < live.Length
      {
        assert s.scratch[k] < |s.live|;
      }
      ListedIndices(s);
      forall i | 0 <= i < live.Length
        ensures positions[i] != VISITED
      {
        assert s.positions[i] == positions[i];
      }
      var seen := VisitAll(source.dirtyIndices, source.dirtyCount, target, []);
      visited := VisitAll(scratch, dirtyIndexCount, target, seen);
    }

    /** Visits both dirty lists and fills the target buffer, which then holds the next publish. */
    method FillTarget(source: PublishBuffer, target: PublishBuffer, ghost s: T.State)
      returns (visited: seq<nat>, nextDirtyCount: nat)
      requires Valid() && s == State() && source == Active() && target == Standby()
      modifies positions, target.rows, target.dirtyIndices
      ensures forall k | 0 <= k < |visited| :: visited[k] < live.Length
      ensures forall i | 0 <= i < live.Length :: i in visited <==> T.Listed(s, i) || i in s.publishedDirty
      ensures forall i | 0 <= i < live.Length && i !in visited :: positions[i] == s.positions[i]
      ensures forall i | 0 <= i < live.Length :: target.rows[i] == T.NextRow(precision, s, i)
      ensures nextDirtyCount <= live.Length && target.dirtyIndices[..nextDirtyCount] == T.Changed(precision, s, s.count)
    {
      visited := VisitBoth(source, target, s);
      CatchUp(source, target);
      nextDirtyCount := ProcessCurrentDirtyIndices(source, target, s);
      forall i | 0 <= i < live.Length
        ensures target.rows[i] == T.NextRow(precision, s, i)
      {
        NextRowInStages(s, i);
      }
    }

    /** The standby row after the visits: its tick delta is zero where it was visited. */
    static function Visited(s: T.State, i: nat): Row
      requires T.Sized(s) && i < |s.live|
    {
      if T.Listed(s, i) || i in s.publishedDirty then s.standby[i].(tickDelta := 0.0) else s.standby[i]
    }

    lemma NextRowInStages(s: T.State, i: nat)
      requires T.Good(precision, s) && i < |s.live|
      ensures T.NextRow(precision, s, i)
           == if i in T.Changed(precision, s, s.count) then Bare(s.live[i])
              else if i in s.publishedDirty then Bare(s.published[i]).(tickDelta := Visited(s, i).tickDelta)
              else Visited(s, i)
    {
      T.ChangedIsExact(precision, s, s.count);
      assert !s.published[i].flags.dirty;
    }

    /** Leaves live rows, positions and the filled buffer as they are after a publish. */
    method SettleVisited(visited: seq<nat>, target: PublishBuffer, ghost s: T.State)
      requires Layout() && target == Standby() && T.Good(precision, s) && |s.live| == live.Length
      requires forall k | 0 <= k < |visited| :: visited[k] < live.Length
      requires forall i | 0 <= i < live.Length :: i in visited <==> T.Listed(s, i) || i in s.publishedDirty
      requires forall i | 0 <= i < live.Length && i !in visited :: positions[i] == s.positions[i]
      requires forall i | 0 <= i < live.Length :: target.rows[i] == T.NextRow(precision, s, i) && live[i] == s.live[i]
      modifies positions, live, target.rows
      ensures live[..] == T.Publish(precision, s).live && positions[..] == T.Publish(precision, s).positions
      ensures target.rows[..] == T.Publish(precision, s).published
    {
      ClearVisited(visited, target);
      forall i | 0 <= i < live.Length
        ensures live[i] == T.Publish(precision, s).live[i]
        ensures positions[i] == T.Publish(precision, s).positions[i]
        ensures target.rows[i] == T.Publish(precision, s).published[i]
      {
        PublishedAt(s, i);
      }
    }

    /** The filled buffer becomes the active one, and the list is empty. */
    method Swap(nextDirtyCount: nat)
      requires Layout() && nextDirtyCount <= live.Length
      modifies this`dirtyIndexCount, this`activePublishIndex, this`guard, first`dirtyCount, second`dirtyCount
      ensures Layout() && Active() == old(Standby()) && Standby() == old(Active())
      ensures Active().dirtyCount == nextDirtyCount && dirtyIndexCount == 0 && guard == T.Published
    {
      var target := Standby();
      target.dirtyCount := nextDirtyCount;
      dirtyIndexCount := 0;
      activePublishIndex := 1 - activePublishIndex;
      guard := T.Published;
    }

    /**
     * Fills the standby buffer, clears the list, and makes the standby buffer the active one, which
     * then shows all rates that were shown or listed.
     */
    method SwapBuffers()
      requires Valid() && PrecisionOk(precision)
      modifies Repr()
      ensures Layout() && State() == T.Publish(precision, old(State()))
      ensures forall i | 0 <= i < live.Length && old(T.Shown(precision, State(), i)) ::
                T.RatesShown(precision, live[i], Active().rows[i])
    {
      ghost var s := State();
      var source, target := Active(), Standby();
      var visited, nextDirtyCount := FillTarget(source, target, s);
      forall i | 0 <= i < live.Length
        ensures live[i] == s.live[i]
      {
        assert live[..][i] == s.live[i];
      }
      SettleVisited(visited, target, s);
      Swap(nextDirtyCount);
      forall i | 0 <= i < live.Length && T.Shown(precision, s, i)
        ensures T.RatesShown(precision, live[i], Active().rows[i])
      {
        T.PublishShowsRates(precision, s, i);
        assert State().live[i] == live[i] && State().published[i] == Active().rows[i];
      }
    }

    /** `createPublishSnapshot` */
    method CreatePublishSnapshot()
      requires Valid() && PrecisionOk(precision)
      modifies Repr()
      ensures Valid() && T.Stepped(precision, old(State()), State(), T.Snapshot)
      ensures forall i | 0 <= i < live.Length && old(T.Shown(precision, State(), i)) ::
                T.RatesShown(precision, live[i], Active().rows[i])
    {
      T.PublishIsExact(precision, State());
      SwapBuffers();
    }

    lemma PublishedAt(s: T.State, i: nat)
      requires T.Good(precision, s) && i < |s.live|
      ensures var t := T.Publish(precision, s);
              && t.live[i] == Bare(s.live[i]) && t.positions[i] == UNSET && t.published[i] == T.NextRow(precision, s, i)
              && Bare(t.published[i]) == t.published[i]
      ensures !T.Listed(s, i) ==> s.positions[i] == UNSET && Bare(s.live[i]) == s.live[i]
    {
      assert !s.published[i].flags.dirty && !s.standby[i].flags.dirty;
      assert s.live[i].flags.dirty <==> T.Listed(s, i);
    }

    /** The list of a sparse set holds exactly the listed indices. */
    lemma ListedIndices(s: T.State)
      requires T.Shape(s) && T.SparseSet(s)
      ensures forall i | 0 <= i < |s.live| :: i in s.scratch[..s.count] <==> T.Listed(s, i)
    {
      forall i | 0 <= i < |s.live|
        ensures i in s.scratch[..s.count] <==> T.Listed(s, i)
      {
        if T.Listed(s, i) {
          assert s.scratch[..s.count][s.positions[i]] == i;
        }
      }
    }

    // ----- transport

    /** `populateComponentBuffers`: fills the leased arrays, index by index, from the published buffer. */
    method PopulateComponentBuffers(indices: array<nat>, rows: array<Row>)
      requires Valid() && indices !in Repr() && rows !in Repr()
      requires indices.Length == rows.Length == Active().dirtyCount
      modifies indices, rows
      ensures T.Transport(indices[..], rows[..]) == T.BuildTransport(State())
    {
      var source := Active();
      ghost var s := State();
      for i := 0 to source.dirtyCount
        invariant forall k | 0 <= k < i :: indices[k] == s.publishedDirty[k]
      {
        indices[i] := source.dirtyIndices[i];
      }
      for i := 0 to source.dirtyCount
        invariant forall k | 0 <= k < source.dirtyCount :: indices[k] == s.publishedDirty[k]
        invariant forall k | 0 <= k < i :: rows[k] == Bare(s.published[s.publishedDirty[k]])
      {
        var resourceIndex := source.dirtyIndices[i];
        assert resourceIndex == s.publishedDirty[i];
        rows[i] := Bare(source.rows[resourceIndex]);
      }
      assert indices[..] == s.publishedDirty;
    }
  }
}
