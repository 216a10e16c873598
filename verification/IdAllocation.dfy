/** Ids: the seed data's generator, the fixed ids, and the application's dispenser. */
module IdAllocation {
  import opened Sequences
  import opened Environment

  const EPOCH_UNIX := 1651363200
  const NOW_UNIX := 1654041599
  const IDS_PER_SECOND := 10000

  /** The first id that is out of reach of the seed data, for a clock that stands still at now. */
  function MaxID(now: int): int {
    (now + 1 - EPOCH_UNIX) * IDS_PER_SECOND
  }

  // ---------------------------------------------------------------- texts of ids

  function HexDigit(d: nat): (c: char)
    requires d < 16
    ensures c == "0123456789abcdef"[d]
  {
    if d < 10 then ('0' as int + d) as char else ('a' as int + d - 10) as char
  }

  /** Sprintf("%x", n). */
  function Hex(n: nat): string {
    if n < 16 then [HexDigit(n)] else Hex(n / 16) + [HexDigit(n % 16)]
  }

  function HexDigitValue(c: char): int {
    if c <= '9' then c as int - '0' as int else c as int - 'a' as int + 10
  }

  function HexValue(s: string): int {
    if s == "" then 0 else 16 * HexValue(s[..|s| - 1]) + HexDigitValue(s[|s| - 1])
  }

  lemma {:induction false} HexRoundTrip(n: nat)
    ensures HexValue(Hex(n)) == n
  {
    var s := Hex(n);
    if n < 16 {
      assert s[..0] == "";
    } else {
      HexRoundTrip(n / 16);
      assert s[..|s| - 1] == Hex(n / 16) && s[|s| - 1] == HexDigit(n % 16);
    }
  }

  lemma HexIsInjective(a: nat, b: nat)
    requires Hex(a) == Hex(b)
    ensures a == b
  {
    HexRoundTrip(a);
    HexRoundTrip(b);
  }

  lemma {:induction false} NoLeadingZero(n: nat)
    ensures Hex(n) != "" && (n > 0 ==> Hex(n)[0] != '0')
    ensures |Hex(n)| == 1 <==> n < 16
  {
    if n >= 16 {
      NoLeadingZero(n / 16);
    }
  }

  /** The id of a tenant's fixed player. */
  function FixedPlayerID(tenantID: nat): string {
    "000" + Hex(tenantID)
  }

  /** Fixed ids differ from each other and from every generated or dispensed id. */
  lemma FixedIDsAreApart(tenantID: nat, other: nat, n: nat)
    requires n > 0
    ensures FixedPlayerID(tenantID) != Hex(n)
    ensures FixedPlayerID(tenantID) == FixedPlayerID(other) <==> tenantID == other
  {
    NoLeadingZero(n);
    assert FixedPlayerID(tenantID)[0] == '0';
    if FixedPlayerID(tenantID) == FixedPlayerID(other) {
      assert Hex(tenantID) == FixedPlayerID(tenantID)[3..] == FixedPlayerID(other)[3..] == Hex(other);
      HexIsInjective(tenantID, other);
    }
  }

  // ---------------------------------------------------------------- the generator

  datatype GenFailure = NotAfterEpoch | TooManyIDs | MaxIDReached

  /** The id ends in the number after its second's last one, or in one of the first hundred for a new second. */
  ghost predicate CountsOn(before: map<int, int>, after: map<int, int>, second: int, id: int) {
    && second in after && after == before[second := after[second]] && id == second * IDS_PER_SECOND + after[second]
    && (second in before ==> after[second] == before[second] + 1)
    && (second !in before ==> 0 <= after[second] <= 99)
  }

  class IdGenerator {
    const now: int
    var idMap: map<int, int>
    var generatedMaxID: int
    ghost var issued: seq<nat>

    ghost predicate Valid()
      reads this
    {
      && Distinct(issued) && generatedMaxID < MaxID(now)
      && (forall second :: second in idMap ==> 1 <= second && 0 <= idMap[second] < IDS_PER_SECOND)
      && (forall i :: 0 <= i < |issued| ==> IsIssued(idMap, issued[i]) && issued[i] <= generatedMaxID)
    }

    constructor (now: int)
      requires now >= EPOCH_UNIX
      ensures Valid() && issued == [] && idMap == map[] && this.now == now
    {
      this.now := now;
      idMap, generatedMaxID, issued := map[], 0, [];
    }

    /** genID for a time of creation. It succeeds exactly for times after the epoch and not after now, unless the
        second has used up its ids; and then the id is a new one, below MaxID. A failure ends the program. */
    method GenID(ts: int) returns (r: Result<string, GenFailure>)
      requires Valid()
      modifies this
      ensures r.Ok? <==> EPOCH_UNIX < ts <= now && !(ts - EPOCH_UNIX in old(idMap) && old(idMap)[ts - EPOCH_UNIX] == IDS_PER_SECOND - 1)
      ensures r == Err(MaxIDReached) ==> ts > now
      ensures r == Err(TooManyIDs) ==> idMap == old(idMap)
      ensures r == Err(TooManyIDs) <==> ts > EPOCH_UNIX && ts - EPOCH_UNIX in old(idMap) && old(idMap)[ts - EPOCH_UNIX] == IDS_PER_SECOND - 1
      ensures r.Ok? ==>
                && Valid() && |issued| == |old(issued)| + 1 && issued[..|old(issued)|] == old(issued)
                && issued[|old(issued)|] !in old(issued)
                && issued[|old(issued)|] / IDS_PER_SECOND == ts - EPOCH_UNIX
                && CountsOn(old(idMap), idMap, ts - EPOCH_UNIX, issued[|old(issued)|])
                && issued[|old(issued)|] < MaxID(now)
                && r.value == Hex(issued[|old(issued)|])
    {
      var id := ts - EPOCH_UNIX;
      if id <= 0 {
        return Err(NotAfterEpoch);
      }
      var newID: nat;
      if id !in idMap {
        var first := IntBetween(0, 99);
        idMap := idMap[id := first];
        newID := id * 10000 + idMap[id];
      } else if idMap[id] < 9999 {
        idMap := idMap[id := idMap[id] + 1];
        newID := id * 10000 + idMap[id];
      } else {
        return Err(TooManyIDs);
      }
      if newID > generatedMaxID {
        generatedMaxID := newID;
      }
      if generatedMaxID >= MaxID(now) {
        return Err(MaxIDReached);
      }
      NewIDIsNew(old(idMap), idMap, issued, id, newID);
      issued := issued + [newID];
      r := Ok(Hex(newID));
    }
  }

  /** The id is one that its second may already have issued. */
  ghost predicate IsIssued(idMap: map<int, int>, n: nat) {
    n / IDS_PER_SECOND in idMap && n % IDS_PER_SECOND <= idMap[n / IDS_PER_SECOND]
  }

  lemma NewIDIsNew(before: map<int, int>, after: map<int, int>, issued: seq<nat>, second: int, newID: nat)
    requires second > 0 && second in after && 0 <= after[second] < IDS_PER_SECOND && newID == second * 10000 + after[second]
    requires after == before[second := after[second]] && (second in before ==> before[second] < after[second])
    requires forall i :: 0 <= i < |issued| ==> IsIssued(before, issued[i])
    ensures newID !in issued && IsIssued(after, newID) && newID / IDS_PER_SECOND == second
    ensures forall i :: 0 <= i < |issued| ==> IsIssued(after, issued[i])
  {
    assert newID / IDS_PER_SECOND == second && newID % IDS_PER_SECOND == after[second];
  }

  /** Any run of the generator whose times lie after the epoch and not after now yields distinct texts, one for each
      time, unless some second is asked for an id after its highest one has been issued; reaching MaxID never ends it. */
  method GenerateIDs(generator: IdGenerator, times: seq<int>) returns (ids: seq<string>, exhausted: bool, ghost numbers: seq<nat>)
    requires generator.Valid() && generator.issued == []
    requires forall i :: 0 <= i < |times| ==> EPOCH_UNIX < times[i] <= generator.now
    modifies generator
    ensures !exhausted ==> |ids| == |times|
    ensures exhausted ==> |ids| < |times|
    ensures exhausted ==>
              var second := times[|ids|] - EPOCH_UNIX;
              second in generator.idMap && generator.idMap[second] == IDS_PER_SECOND - 1
    ensures forall i, j :: 0 <= i < j < |ids| ==> ids[i] != ids[j]
    ensures |numbers| == |ids| && forall i :: 0 <= i < |ids| ==> ids[i] == Hex(numbers[i]) && IsSeedID(generator.now, numbers[i])
  {
    ids, exhausted, numbers := [], false, [];
    for n := 0 to |times|
      invariant generator.Valid() && generator.issued == numbers && |ids| == n && |numbers| == n && !exhausted
      invariant forall i :: 0 <= i < n ==> ids[i] == Hex(numbers[i])
      invariant forall i :: 0 <= i < n ==> IsSeedID(generator.now, numbers[i])
    {
      var r := generator.GenID(times[n]);
      if r.Err? {
        exhausted := true;
        break;
      }
      numbers := generator.issued;
      ids := ids + [r.value];
    }
    forall i, j | 0 <= i < j < |ids| ensures ids[i] != ids[j] {
      if ids[i] == ids[j] {
        HexIsInjective(numbers[i], numbers[j]);
      }
    }
  }

  // ---------------------------------------------------------------- the dispenser

  /** What one REPLACE into id_generator, and reading its insert id, comes to. The new id is above the last one. */
  datatype Replaced = Deadlock | OtherError | NoInsertID | Inserted(gap: nat)

  datatype DispenseFailure = GaveUp | ReplaceFailed | InsertIDFailed

  class IdTable {
    var last: nat
    ghost var dispensed: seq<nat>
    ghost const start: nat

    ghost predicate Valid()
      reads this
    {
      && start <= last
      && (forall i :: 0 <= i < |dispensed| ==> start < dispensed[i] <= last)
      && (forall i, j :: 0 <= i < j < |dispensed| ==> dispensed[i] < dispensed[j])
    }

    /** storeMaxID, or the reset of a benchmark run: the row holds this id. */
    constructor (last: nat)
      ensures Valid() && start == last && this.last == last && dispensed == []
    {
      this.last, start, dispensed := last, last, [];
    }

    method Replace(outcome: Replaced) returns (id: nat)
      requires Valid()
      modifies this`last
      ensures Valid() && (outcome.Inserted? ==> id == last > old(last)) && (!outcome.Inserted? ==> last >= old(last))
    {
      if outcome.Inserted? {
        last := last + 1 + outcome.gap;
      } else if outcome.NoInsertID? {
        last := last + 1;
      }
      id := last;
    }

    /** dispenseID: it tries up to a hundred times, and only deadlocks are tried again. An id comes out exactly when
        the first other outcome is an insertion. */
    method DispenseID(outcomes: nat -> Replaced) returns (r: Result<string, DispenseFailure>)
      requires Valid()
      modifies this
      ensures Valid()
      ensures r.Ok? <==> exists k: nat :: k < 100 && outcomes(k).Inserted? && forall i: nat :: i < k ==> outcomes(i).Deadlock?
      ensures r == Err(GaveUp) <==> forall i: nat :: i < 100 ==> outcomes(i).Deadlock?
      ensures r.Ok? ==>
                && |dispensed| == |old(dispensed)| + 1 && dispensed[..|old(dispensed)|] == old(dispensed)
                && dispensed[|old(dispensed)|] > old(last) && r.value == Hex(dispensed[|old(dispensed)|])
      ensures r.Err? ==> dispensed == old(dispensed)
    {
      var id: nat := 0;
      var i: nat := 0;
      while i < 100
        invariant i <= 100 && id == 0 && Valid() && dispensed == old(dispensed) && last >= old(last)
        invariant forall k: nat :: k < i ==> outcomes(k).Deadlock?
      {
        var outcome := outcomes(i);
        var inserted := Replace(outcome);
        if outcome.Deadlock? {
          i := i + 1;
          continue;
        }
        if outcome.OtherError? {
          return Err(ReplaceFailed);
        }
        if outcome.NoInsertID? {
          return Err(InsertIDFailed);
        }
        id := inserted;
        break;
      }
      if id != 0 {
        dispensed := dispensed + [id];
        r := Ok(Hex(id));
      } else {
        r := Err(GaveUp);
      }
    }
  }

  // ---------------------------------------------------------------- seeded against dispensed

  /** The ids that the generator can issue: those of some second in range. */
  ghost predicate IsSeedID(now: int, n: nat) {
    1 <= n / IDS_PER_SECOND <= now - EPOCH_UNIX
  }

  /** Starting the dispenser at a number keeps it clear of everything the seed data can contain exactly when the number
      is MaxID - 1 or more; storeMaxID starts it at MaxID. */
  lemma DispensedAreApart(now: int, start: nat)
    requires now > EPOCH_UNIX
    ensures (forall n: nat :: n > start ==> !IsSeedID(now, n)) <==> start >= MaxID(now) - 1
    ensures forall n: nat :: IsSeedID(now, n) ==> n < MaxID(now)
  {
    if start < MaxID(now) - 1 {
      var n: nat := MaxID(now) - 1;
      assert n / IDS_PER_SECOND == now - EPOCH_UNIX;
      assert IsSeedID(now, n);
    }
  }

  /** Texts of dispensed ids differ from those of seeded ids, for a dispenser that storeMaxID has started. */
  lemma DispensedTextsAreApart(table: IdTable, now: int, i: nat, seeded: nat)
    requires table.Valid() && now > EPOCH_UNIX && table.start == MaxID(now)
    requires i < |table.dispensed| && IsSeedID(now, seeded)
    ensures Hex(table.dispensed[i]) != Hex(seeded)
  {
    DispensedAreApart(now, table.start);
    if Hex(table.dispensed[i]) == Hex(seeded) {
      HexIsInjective(table.dispensed[i], seeded);
    }
  }

  /** The reset in webapp/sql/init.sql writes a number with one digit less than storeMaxID does. */
  const RESET_ID := 2678400000

  /** After that reset the next id is one that the seed data can contain: the second id of second 267840. */
  lemma ResetCanCollide()
    ensures MaxID(NOW_UNIX) == 10 * RESET_ID
    ensures IsSeedID(NOW_UNIX, RESET_ID + 1) && RESET_ID + 1 == 267840 * IDS_PER_SECOND + 1
    ensures !forall n: nat :: n > RESET_ID ==> !IsSeedID(NOW_UNIX, n)
  {
    assert IsSeedID(NOW_UNIX, RESET_ID + 1);
  }
}
