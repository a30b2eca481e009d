/** Copying recorded calls into another database in batches, resuming after whatever is already
    there, with the process allowed to die between any two statements. */
module ResumableImport {
  import opened Collections
  import opened OrderBy

  const COMMIT_EVERY := 200

  // ---- one row ----

  /** A stored value. SQLite keeps a time as text and a boolean as a number, or as text too. */
  datatype Value = Null | Text(s: string) | Instant(at: int) | Number(n: int) | Flag(b: bool)

  /** What the target wants of a column; reading a time out of text is the database's business. */
  datatype Column = Plain | DateTime(parse: string -> Option<int>) | Boolean

  function ParseDateTime(parse: string -> Option<int>, v: Value): Option<int> {
    match v
    case Text(s) => parse(s)
    case Instant(at) => Some(at)
    case _ => None
  }

  predicate Space(c: char) { c in " \t\n\r" }

  function Trimmed(s: string): string {
    if s == "" then ""
    else if Space(s[0]) then Trimmed(s[1..])
    else if Space(s[|s| - 1]) then Trimmed(s[..|s| - 1])
    else s
  }

  function Lower(s: string): string {
    seq(|s|, i requires 0 <= i < |s| => if 'A' <= s[i] <= 'Z' then s[i] - 'A' + 'a' else s[i])
  }

  function Truthy(v: Value): bool {
    match v
    case Flag(b) => b
    case Number(n) => n != 0
    case Text(s) => Lower(Trimmed(s)) !in ["", "0", "false", "f", "no", "null"]
    case _ => false
  }

  predicate Blank(s: string) { forall i | 0 <= i < |s| :: Space(s[i]) }

  lemma {:induction false} TrimmedInFront(before: string, s: string)
    requires Blank(before)
    ensures Trimmed(before + s) == Trimmed(s)
  {
    if before == "" {
      assert before + s == s;
    } else {
      assert (before + s)[1..] == before[1..] + s;
      TrimmedInFront(before[1..], s);
    }
  }

  lemma {:induction false} TrimmedBehind(s: string, after: string)
    requires Blank(after) && s != "" && !Space(s[0])
    ensures Trimmed(s + after) == Trimmed(s)
  {
    if after == "" {
      assert s + after == s;
    } else {
      assert (s + after)[..|s + after| - 1] == s + after[..|after| - 1];
      TrimmedBehind(s, after[..|after| - 1]);
    }
  }

  /** Trimming takes the spaces off both ends and leaves the rest. */
  lemma TrimmedMeans(before: string, s: string, after: string)
    requires Blank(before) && Blank(after) && (s != "" ==> !Space(s[0]) && !Space(s[|s| - 1]))
    ensures Trimmed(before + s + after) == s
  {
    assert before + s + after == before + (s + after);
    TrimmedInFront(before, s + after);
    if s == "" {
      assert s + after == after + "";
      TrimmedInFront(after, "");
    } else {
      TrimmedBehind(s, after);
    }
  }

  /** A stored boolean is false for 0, for false itself and for the few words that say so, in any case
      and with any space around them; every other text and number is true. */
  lemma TruthyMeans(before: string, s: string, after: string, n: int, b: bool)
    requires Blank(before) && Blank(after) && (s != "" ==> !Space(s[0]) && !Space(s[|s| - 1]))
    ensures Truthy(Text(before + s + after)) <==> Lower(s) !in ["", "0", "false", "f", "no", "null"]
    ensures (Truthy(Number(n)) <==> n != 0) && (Truthy(Flag(b)) <==> b)
  {
    TrimmedMeans(before, s, after);
  }

  function CoerceValue(column: Column, v: Value): Option<Value> {
    if v.Null? then Some(v)
    else match column
      case Plain => Some(v)
      case Boolean => Some(Flag(Truthy(v)))
      case DateTime(parse) =>
        var at := ParseDateTime(parse, v);
        if at.Some? then Some(Instant(at.value)) else None
  }

  /** The row the target accepts, or None when a timestamp cannot be read. */
  function Coerced(columns: seq<Column>, row: seq<Value>): (r: Option<seq<Value>>)
    requires |row| == |columns|
    ensures r.Some? <==> forall i | 0 <= i < |row| :: CoerceValue(columns[i], row[i]).Some?
    ensures r.Some? ==> |r.value| == |row| && forall i | 0 <= i < |row| :: CoerceValue(columns[i], row[i]) == Some(r.value[i])
  {
    if row == [] then Some([]) else
      var n := |row| - 1;
      var init, last := Coerced(columns[..n], row[..n]), CoerceValue(columns[n], row[n]);
      if init.Some? && last.Some? then Some(init.value + [last.value]) else None
  }

  /** Column by column: nulls stay null, plain values stay as they are, booleans become the truth of what
      was stored, and a time becomes the instant it reads as or spoils the row. */
  lemma ColumnsAreCoerced(columns: seq<Column>, row: seq<Value>, i: nat)
    requires |row| == |columns| && i < |row|
    ensures !row[i].Null? && columns[i].DateTime? && ParseDateTime(columns[i].parse, row[i]).None? ==> Coerced(columns, row).None?
    ensures Coerced(columns, row).Some? ==>
              var v := Coerced(columns, row).value[i];
              && (row[i].Null? || columns[i].Plain? ==> v == row[i])
              && (!row[i].Null? && columns[i].Boolean? ==> v == Flag(Truthy(row[i])))
              && (!row[i].Null? && columns[i].DateTime? ==> Some(v.at) == ParseDateTime(columns[i].parse, row[i]) && v.Instant?)
  {
    assert Coerced(columns, row).Some? ==> CoerceValue(columns[i], row[i]) == Some(Coerced(columns, row).value[i]);
  }

  /** In place, column by column; an unreadable timestamp stops it where it stands. */
  method CoerceRow(columns: seq<Column>, values: array<Value>) returns (ok: bool)
    requires values.Length == |columns|
    modifies values
    ensures ok == Coerced(columns, old(values[..])).Some?
    ensures ok ==> values[..] == Coerced(columns, old(values[..])).value
  {
    for i := 0 to |columns|
      invariant forall j | 0 <= j < i :: CoerceValue(columns[j], old(values[j])) == Some(values[j])
      invariant forall j | i <= j < values.Length :: values[j] == old(values[j])
    {
      if values[i].Null? {
        continue;
      }
      if columns[i].DateTime? {
        var at := ParseDateTime(columns[i].parse, values[i]);
        if at.None? {
          assert CoerceValue(columns[i], old(values[..])[i]).None?;
          return false;
        }
        values[i] := Instant(at.value);
        continue;
      }
      if columns[i].Boolean? {
        values[i] := Flag(Truthy(values[i]));
      }
    }
    assert forall j | 0 <= j < |columns| :: CoerceValue(columns[j], old(values[..])[j]) == Some(values[j]);
    ok := true;
  }

  // ---- the tables ----

  /** Calls by id; `dateTime` is the column compared to tell a resume from somebody else's calls.
      `stored` is what the target's time columns keep of an instant: some backends drop digits. */
  datatype Schema = Schema(columns: seq<Column>, dateTime: nat, stored: int -> int)
  {
    predicate Valid() { dateTime < |columns| && columns[dateTime].DateTime? }

    /** The time a call's row carries, if it can be read. */
    function TimeOf(row: seq<Value>): Option<int>
      requires Valid() && |row| == |columns|
    {
      ParseDateTime(columns[dateTime].parse, row[dateTime])
    }

    function StoredValue(column: Column, v: Value): Value {
      if column.DateTime? && v.Instant? then Instant(stored(v.at)) else v
    }
  }

  /** What the target holds of a source row once it is inserted, or None if it is skipped. */
  function Arriving(schema: Schema, row: seq<Value>): (r: Option<seq<Value>>)
    requires |row| == |schema.columns|
    ensures r.Some? <==> Coerced(schema.columns, row).Some?
    ensures r.Some? ==> |r.value| == |row|
  {
    var coerced := Coerced(schema.columns, row);
    if coerced.None? then None
    else Some(seq(|row|, i requires 0 <= i < |row| => schema.StoredValue(schema.columns[i], coerced.value[i])))
  }

  type Calls = map<int, seq<Value>>

  predicate Shaped(schema: Schema, calls: Calls) { forall id | id in calls :: |calls[id]| == |schema.columns| }

  /** The source: positive ids, every row of the same shape, and a time in each, the column being
      declared not null. */
  predicate SourceOk(schema: Schema, source: Calls) {
    schema.Valid() && Shaped(schema, source) && forall id | id in source :: id > 0 && !source[id][schema.dateTime].Null?
  }

  function Descending(): int -> Key { (id: int) => Key(-id, 0, 0) }

  function Rising(): int -> Key { (id: int) => Key(id, 0, 0) }

  /** Where a copy resumes: the highest id present, else zero. */
  function MaxId(calls: Calls): int { if calls == map[] then 0 else First(Descending(), calls.Keys) }

  function TimeAt(schema: Schema, calls: Calls, id: int): Option<int>
    requires schema.Valid() && Shaped(schema, calls)
  {
    if id in calls then schema.TimeOf(calls[id]) else None
  }

  predicate CallsAgreeAt(schema: Schema, source: Calls, target: Calls, id: int)
    requires schema.Valid() && Shaped(schema, source) && Shaped(schema, target)
  {
    TimeAt(schema, source, id).Some? && TimeAt(schema, source, id) == TimeAt(schema, target, id)
  }

  // ---- one run ----

  datatype Status = Finished | Refused | Died

  /** What a run has done: rows committed, the open transaction, and how many statements the
      process still lives for. */
  datatype Copying = Copying(committed: Calls, pending: Option<Calls>, copied: nat, life: nat)

  /** Begin if no transaction is open, insert, and commit every so many rows. None means the
      process died first, leaving what was committed. */
  function Inserted(c: Copying, id: int, row: seq<Value>): Option<Copying> {
    var before := if c.pending.None? then 2 else 1;
    var rows := (if c.pending.Some? then c.pending.value else map[])[id := row];
    if c.life < before then None
    else if (c.copied + 1) % COMMIT_EVERY != 0 then Some(Copying(c.committed, Some(rows), c.copied + 1, c.life - before))
    else if c.life == before then None
    else Some(Copying(c.committed + rows, None, c.copied + 1, c.life - before - 1))
  }

  function CopyRows(schema: Schema, source: Calls, ids: seq<int>, c: Copying): (Calls, Status)
    requires SourceOk(schema, source)
    requires forall id | id in ids :: id in source
  {
    if ids == [] then
      if c.pending.None? then (c.committed, Finished)
      else if c.life == 0 then (c.committed, Died)
      else (c.committed + c.pending.value, Finished)
    else
      var id := ids[0];
      var row := Arriving(schema, source[id]);
      if row.None? then CopyRows(schema, source, ids[1..], c)
      else
        var next := Inserted(c, id, row.value);
        if next.None? then (c.committed, Died) else CopyRows(schema, source, ids[1..], next.value)
  }

  function IdsAfter(source: Calls, after: int): (ids: seq<int>)
    ensures Ascending(Rising(), ids)
    ensures forall id :: id in ids <==> id in source && id > after
  {
    Sorted(Rising(), set id | id in source && id > after)
  }

  function CopyRun(schema: Schema, source: Calls, target: Calls, life: nat): (Calls, Status)
    requires SourceOk(schema, source) && Shaped(schema, target)
  {
    if life == 0 then (target, Died)
    else if target != map[] && !CallsAgreeAt(schema, source, target, MaxId(target)) then (target, Refused)
    else CopyRows(schema, source, IdsAfter(source, MaxId(target)), Copying(target, None, 0, life))
  }

  /** How the run goes on from row `i`. */
  lemma NextRow(schema: Schema, source: Calls, ids: seq<int>, i: nat, c: Copying)
    requires SourceOk(schema, source) && i < |ids| && forall id | id in ids :: id in source
    ensures (forall id | id in ids[i..] :: id in source) && (forall id | id in ids[i + 1..] :: id in source)
    ensures ids[i] in source
    ensures var id := ids[i];
            var row := Arriving(schema, source[id]);
            CopyRows(schema, source, ids[i..], c) ==
              if row.None? then CopyRows(schema, source, ids[i + 1..], c)
              else if Inserted(c, id, row.value).None? then (c.committed, Died)
              else CopyRows(schema, source, ids[i + 1..], Inserted(c, id, row.value).value)
  {
    hide Arriving, Inserted;
    assert ids[i..][1..] == ids[i + 1..] && ids[i] in ids;
    assert ids[i..][0] == ids[i];
  }

  class Target {
    var calls: Calls

    method InsertRow(id: int, row: seq<Value>, open: Option<Calls>, already: nat, lifetime: nat)
      returns (alive: bool, tx: Option<Calls>, copied: nat, life: nat)
      modifies this
      ensures var next := Inserted(Copying(old(calls), open, already, lifetime), id, row);
              if alive then next == Some(Copying(calls, tx, copied, life)) else next == None && calls == old(calls)
    {
      alive, tx, copied, life := false, open, already, lifetime;
      if tx.None? {
        if life == 0 { return; }
        tx, life := Some(map[]), life - 1;
      }
      if life == 0 { return; }
      tx, life := Some(tx.value[id := row]), life - 1;
      copied := copied + 1;
      if copied % COMMIT_EVERY == 0 {
        if life == 0 { return; }
        calls, tx, life := calls + tx.value, None, life - 1;
      }
      alive := true;
    }

    method CopyCalls(schema: Schema, source: Calls, lifetime: nat) returns (status: Status)
      requires SourceOk(schema, source) && Shaped(schema, calls)
      modifies this
      ensures (calls, status) == CopyRun(schema, source, old(calls), lifetime)
    {
      hide Sorted, First, Arriving;
      if lifetime == 0 {
        return Died;
      }
      var after := MaxId(calls);
      if calls != map[] && !CallsAgreeAt(schema, source, calls, after) {
        return Refused;
      }
      var ids := IdsAfter(source, after);
      ghost var whole := CopyRun(schema, source, calls, lifetime);
      var tx: Option<Calls>, copied, life := None, 0, lifetime;
      var i := 0;
      while i < |ids|
        invariant 0 <= i <= |ids|
        invariant CopyRows(schema, source, ids[i..], Copying(calls, tx, copied, life)) == whole
      {
        NextRow(schema, source, ids, i, Copying(calls, tx, copied, life));
        hide CopyRun, CopyRows, MaxId, Ascending, Inserted;
        var row := Arriving(schema, source[ids[i]]);
        if row.Some? {
          var alive;
          alive, tx, copied, life := InsertRow(ids[i], row.value, tx, copied, life);
          if !alive { return Died; }
        }
        i := i + 1;
      }
      if tx.Some? {
        if life == 0 { return Died; }
        calls := calls + tx.value;
      }
      status := Finished;
    }
  }

  // ---- what the target holds ----

  /** The coercible source calls with ids up to `m`, each as the target stores it. */
  function Coercible(schema: Schema, source: Calls, m: int): Calls
    requires SourceOk(schema, source)
  {
    map id | id in source && id <= m && Arriving(schema, source[id]).Some? ::
      Arriving(schema, source[id]).value
  }

  function AllCoercible(schema: Schema, source: Calls): Calls
    requires SourceOk(schema, source)
  {
    map id | id in source && Arriving(schema, source[id]).Some? :: Arriving(schema, source[id]).value
  }

  /** Exactly the coercible calls up to the highest one present. */
  ghost predicate IsPrefix(schema: Schema, source: Calls, target: Calls)
    requires SourceOk(schema, source)
  {
    target == Coercible(schema, source, MaxId(target))
  }

  lemma MaxIdMeans(calls: Calls)
    ensures forall id | id in calls :: id <= MaxId(calls)
    ensures calls != map[] ==> MaxId(calls) in calls
    ensures calls == map[] ==> MaxId(calls) == 0
  {
    if calls != map[] {
      var m := First(Descending(), calls.Keys);
      forall id | id in calls ensures id <= m {
        assert id in calls.Keys && (id == m || Below(Descending()(m), Descending()(id)));
      }
    }
  }

  lemma CutIsPrefix(schema: Schema, source: Calls, m: int)
    requires SourceOk(schema, source)
    ensures IsPrefix(schema, source, Coercible(schema, source, m))
  {
    hide Arriving, MaxId;
    var calls := Coercible(schema, source, m);
    MaxIdMeans(calls);
    if calls != map[] {
      assert MaxId(calls) <= m;
      assert Coercible(schema, source, MaxId(calls)) == calls;
    } else {
      assert Coercible(schema, source, 0) == map[];
    }
  }

  function Open(c: Copying): Calls { if c.pending.Some? then c.pending.value else map[] }

  /** Everything processed so far is either committed or in the open transaction. */
  ghost predicate Progressing(schema: Schema, source: Calls, c: Copying, cut: int, seen: int)
    requires SourceOk(schema, source)
  {
    && cut <= seen && c.committed == Coercible(schema, source, cut)
    && c.committed + Open(c) == Coercible(schema, source, seen)
  }

  lemma InsertProgresses(schema: Schema, source: Calls, c: Copying, cut: int, seen: int, id: int)
    requires SourceOk(schema, source) && id in source && id > seen
    requires forall other | other in source && other > seen :: other >= id
    requires Progressing(schema, source, c, cut, seen)
    ensures var row := Arriving(schema, source[id]);
            if row.None? then Progressing(schema, source, c, cut, id)
            else var next := Inserted(c, id, row.value);
              next.Some? ==> Progressing(schema, source, next.value, if next.value.pending.None? then id else cut, id)
  {
    hide Coercible, Arriving;
    OneMoreCall(schema, source, seen, id);
    var row := Arriving(schema, source[id]);
    if row.Some? {
      assert c.committed + Open(c)[id := row.value] == (c.committed + Open(c))[id := row.value];
    }
  }

  lemma NothingLeft(schema: Schema, source: Calls, seen: int)
    requires SourceOk(schema, source) && forall id | id in source :: id <= seen
    ensures Coercible(schema, source, seen) == AllCoercible(schema, source)
  {
    hide Arriving;
  }

  lemma {:induction false} CopyRowsKeepsPrefix(schema: Schema, source: Calls, ids: seq<int>, c: Copying, cut: int, seen: int)
    requires SourceOk(schema, source) && Ascending(Rising(), ids)
    requires forall id :: id in ids <==> id in source && id > seen
    requires Progressing(schema, source, c, cut, seen)
    ensures var (calls, status) := CopyRows(schema, source, ids, c);
            && (exists m :: m >= cut && calls == Coercible(schema, source, m))
            && status != Refused
            && (status == Finished ==> calls == AllCoercible(schema, source))
    decreases |ids|
  {
    hide Arriving, Inserted;
    if ids == [] {
      NothingLeft(schema, source, seen);
      assert c.pending.None? ==> c.committed + Open(c) == c.committed;
    } else {
      hide Coercible, AllCoercible;
      var id := ids[0];
      var row := Arriving(schema, source[id]);
      NextId(source, ids, seen);
      InsertProgresses(schema, source, c, cut, seen, id);
      hide Progressing;
      if row.None? {
        CopyRowsKeepsPrefix(schema, source, ids[1..], c, cut, id);
      } else {
        var next := Inserted(c, id, row.value);
        if next.Some? {
          CopyRowsKeepsPrefix(schema, source, ids[1..], next.value, if next.value.pending.None? then id else cut, id);
        }
      }
    }
  }

  lemma NextId(source: Calls, ids: seq<int>, seen: int)
    requires Ascending(Rising(), ids) && ids != []
    requires forall id :: id in ids <==> id in source && id > seen
    ensures ids[0] in source && ids[0] > seen
    ensures forall id | id in source && id > seen :: id >= ids[0]
    ensures forall id :: id in ids[1..] <==> id in source && id > ids[0]
    ensures Ascending(Rising(), ids[1..])
  {
    assert ids[0] in ids && ids == [ids[0]] + ids[1..];
    forall i | 1 <= i < |ids| ensures ids[i] > ids[0] {
      assert Below(Rising()(ids[0]), Rising()(ids[i]));
    }
    forall id | id in ids ensures id == ids[0] || (id in ids[1..] && id > ids[0]) {
      var i :| 0 <= i < |ids| && ids[i] == id;
      assert i > 0 ==> ids[1..][i - 1] == id;
    }
    assert forall id | id in ids[1..] :: id in ids;
    assert forall id | id in ids[1..] :: id > ids[0];
  }

  lemma OneMoreCall(schema: Schema, source: Calls, seen: int, id: int)
    requires SourceOk(schema, source) && id in source && id > seen
    requires forall other | other in source && other > seen :: other >= id
    ensures var row := Arriving(schema, source[id]);
            Coercible(schema, source, id) ==
              if row.Some? then Coercible(schema, source, seen)[id := row.value] else Coercible(schema, source, seen)
  {
    hide Arriving;
    assert forall other | other in source && other <= id :: other <= seen || other == id;
  }

  /** One run over a target that is a prefix of this source leaves a prefix at least as long, and
      all of it when it finishes. */
  lemma RunExtendsPrefix(schema: Schema, source: Calls, target: Calls, life: nat)
    requires SourceOk(schema, source) && Shaped(schema, target) && IsPrefix(schema, source, target)
    ensures var (calls, status) := CopyRun(schema, source, target, life);
            && IsPrefix(schema, source, calls) && Shaped(schema, calls)
            && (forall id | id in target :: id in calls && calls[id] == target[id])
            && (status == Finished ==> calls == AllCoercible(schema, source))
  {
    hide IsPrefix, Arriving, MaxId, CopyRows, Sorted;
    PrefixIsCut(schema, source, target);
    var cut := MaxId(target);
    var (calls, status) := CopyRun(schema, source, target, life);
    var ids := IdsAfter(source, cut);
    var c := Copying(target, None, 0, life);
    assert c.committed + map[] == c.committed;
    CopyRowsKeepsPrefix(schema, source, ids, c, cut, cut);
    if life == 0 || status == Refused {
    } else {
      var m :| m >= cut && CopyRows(schema, source, ids, c).0 == Coercible(schema, source, m);
      CutIsPrefix(schema, source, m);
    }
  }

  lemma PrefixIsCut(schema: Schema, source: Calls, target: Calls)
    requires SourceOk(schema, source) && IsPrefix(schema, source, target)
    ensures target == Coercible(schema, source, MaxId(target))
  {
  }

  ghost function Runs(schema: Schema, source: Calls, lives: seq<nat>): (target: Calls)
    requires SourceOk(schema, source)
    ensures IsPrefix(schema, source, target) && Shaped(schema, target)
  {
    if lives == [] then
      assert IsPrefix(schema, source, map[]);
      map[]
    else
      var before := Runs(schema, source, lives[..|lives| - 1]);
      RunExtendsPrefix(schema, source, before, lives[|lives| - 1]);
      CopyRun(schema, source, before, lives[|lives| - 1]).0
  }

  /** From an empty target, after any number of runs cut off at any statement, the target holds
      exactly the coercible calls up to its highest id; one more run that finishes makes it all of
      them. */
  lemma AnyNumberOfRuns(schema: Schema, source: Calls, lives: seq<nat>, life: nat)
    requires SourceOk(schema, source)
    ensures var target := Runs(schema, source, lives);
            && target == Coercible(schema, source, MaxId(target))
            && (CopyRun(schema, source, target, life).1 == Finished ==>
                  CopyRun(schema, source, target, life).0 == AllCoercible(schema, source))
  {
    hide CopyRun, Runs;
    RunExtendsPrefix(schema, source, Runs(schema, source, lives), life);
  }

  // ---- targets that are not ours, and runs that are left alone ----

  lemma {:induction false} CopyRowsKeepsRows(schema: Schema, source: Calls, ids: seq<int>, c: Copying, kept: Calls)
    requires SourceOk(schema, source)
    requires forall id | id in ids :: id in source && id !in kept
    requires Within(kept, c.committed) && Open(c).Keys !! kept.Keys
    ensures Within(kept, CopyRows(schema, source, ids, c).0) && CopyRows(schema, source, ids, c).1 != Refused
    decreases |ids|
  {
    hide Arriving;
    if ids != [] {
      var id := ids[0];
      assert id in ids && forall other | other in ids[1..] :: other in ids;
      var row := Arriving(schema, source[id]);
      if row.None? {
        CopyRowsKeepsRows(schema, source, ids[1..], c, kept);
      } else {
        var next := Inserted(c, id, row.value);
        if next.Some? {
          CopyRowsKeepsRows(schema, source, ids[1..], next.value, kept);
        }
      }
    }
  }

  /** Both sides hold a call with this id, and both carry one and the same readable time. */
  ghost predicate SameRecording(schema: Schema, source: Calls, target: Calls, id: int)
    requires schema.Valid() && Shaped(schema, source) && Shaped(schema, target)
  {
    id in source && id in target &&
    exists at :: schema.TimeOf(source[id]) == Some(at) && schema.TimeOf(target[id]) == Some(at)
  }

  lemma AgreeMeans(schema: Schema, source: Calls, target: Calls, id: int)
    requires schema.Valid() && Shaped(schema, source) && Shaped(schema, target)
    ensures CallsAgreeAt(schema, source, target, id) <==> SameRecording(schema, source, target, id)
  {
    if CallsAgreeAt(schema, source, target, id) {
      var at := TimeAt(schema, source, id).value;
      assert schema.TimeOf(source[id]) == Some(at) && schema.TimeOf(target[id]) == Some(at);
    }
  }

  /** Whatever the target held, one run at most adds to it; and when the call at its highest id is
      not the same recording on both sides, no run however long changes anything. */
  lemma TargetIsNeverAltered(schema: Schema, source: Calls, target: Calls, life: nat)
    requires SourceOk(schema, source) && Shaped(schema, target)
    ensures Within(target, CopyRun(schema, source, target, life).0)
    ensures target != map[] && !SameRecording(schema, source, target, MaxId(target)) ==>
              CopyRun(schema, source, target, life) == (target, if life == 0 then Died else Refused)
  {
    MaxIdMeans(target);
    if target != map[] { AgreeMeans(schema, source, target, MaxId(target)); }
    hide MaxId, CopyRows, CallsAgreeAt, SameRecording;
    var ids := IdsAfter(source, MaxId(target));
    CopyRowsKeepsRows(schema, source, ids, Copying(target, None, 0, life), target);
  }

  lemma ArrivingTime(schema: Schema, row: seq<Value>)
    requires schema.Valid() && |row| == |schema.columns| && !row[schema.dateTime].Null?
    requires Arriving(schema, row).Some?
    ensures schema.TimeOf(row).Some?
    ensures schema.TimeOf(Arriving(schema, row).value) == Some(schema.stored(schema.TimeOf(row).value))
  {
    var at := schema.dateTime;
    assert CoerceValue(schema.columns[at], row[at]) == Some(Coerced(schema.columns, row).value[at]);
  }

  /** The target's column keeps the time of the last call copied as it is. */
  predicate LastTimeKept(schema: Schema, source: Calls, target: Calls)
    requires SourceOk(schema, source)
  {
    target != map[] && MaxId(target) in source ==>
      var at := schema.TimeOf(source[MaxId(target)]);
      at.Some? ==> schema.stored(at.value) == at.value
  }

  /** A run takes its own partial copy for somebody else's if and only if the target's column does not
      keep the time of the last call copied. */
  lemma OwnCopyIsResumed(schema: Schema, source: Calls, target: Calls, life: nat)
    requires SourceOk(schema, source) && Shaped(schema, target) && IsPrefix(schema, source, target) && life > 0
    ensures CopyRun(schema, source, target, life).1 == Refused <==> !LastTimeKept(schema, source, target)
  {
    AgreeExactly(schema, source, target);
    hide Arriving, MaxId, CopyRows, CallsAgreeAt, LastTimeKept, IsPrefix;
    MaxIdMeans(target);
    CopyRowsKeepsRows(schema, source, IdsAfter(source, MaxId(target)), Copying(target, None, 0, life), target);
  }

  lemma AgreeExactly(schema: Schema, source: Calls, target: Calls)
    requires SourceOk(schema, source) && Shaped(schema, target) && IsPrefix(schema, source, target)
    ensures target == map[] ==> LastTimeKept(schema, source, target)
    ensures target != map[] ==>
              (CallsAgreeAt(schema, source, target, MaxId(target)) <==> LastTimeKept(schema, source, target))
  {
    hide Arriving, MaxId;
    MaxIdMeans(target);
    if target != map[] {
      var id := MaxId(target);
      assert id in source && target[id] == Arriving(schema, source[id]).value;
      ArrivingTime(schema, source[id]);
    }
  }

  /** One call a fraction of a second past the second, and a target that keeps whole seconds: the run
      that finished is refused the next time. */
  lemma SubSecondCallIsRefused(parse: string -> Option<int>, life: nat)
    requires life > 0
    ensures var schema := Schema([DateTime(parse)], 0, at => at - at % 1000);
            var source := map[1 := [Instant(1400)]];
            var (target, status) := CopyRun(schema, source, map[], 3);
            && SourceOk(schema, source) && (target, status) == (map[1 := [Instant(1000)]], Finished)
            && CopyRun(schema, source, target, life) == (target, Refused)
  {
    var schema := Schema([DateTime(parse)], 0, at => at - at % 1000);
    var source := map[1 := [Instant(1400)]];
    var held: Calls := map[1 := [Instant(1000)]];
    FractionArrives(schema, parse);
    OnlyId(source);
    OneRowIsCopied(schema, source, 1, [Instant(1000)]);
    MaxIdMeans(held);
    hide CopyRows, IdsAfter, Arriving;
    assert CopyRun(schema, source, map[], 3) == (held, Finished);
  }

  lemma FractionArrives(schema: Schema, parse: string -> Option<int>)
    requires schema.columns == [DateTime(parse)] && schema.stored(1400) == 1000
    ensures Arriving(schema, [Instant(1400)]) == Some([Instant(1000)])
  {
    var columns, row := schema.columns, [Instant(1400)];
    assert CoerceValue(columns[0], row[0]) == Some(row[0]);
    var coerced := Coerced(columns, row).value;
    assert CoerceValue(columns[0], row[0]) == Some(coerced[0]);
    assert coerced == row;
    assert Arriving(schema, row).value == [Instant(1000)];
  }

  lemma OnlyId(source: Calls)
    requires source.Keys == {1}
    ensures IdsAfter(source, 0) == [1]
  {
    hide Sorted;
    var ids := IdsAfter(source, 0);
    ListedOnce(ids, {1});
    assert 1 in ids && ids[0] in ids;
  }

  /** Begin, insert and commit: three statements copy the only row there is. */
  lemma OneRowIsCopied(schema: Schema, source: Calls, id: int, row: seq<Value>)
    requires SourceOk(schema, source) && id in source && Arriving(schema, source[id]) == Some(row)
    ensures CopyRows(schema, source, [id], Copying(map[], None, 0, 3)) == (map[id := row], Finished)
  {
    hide Arriving;
    var c, none: Calls := Copying(map[], None, 0, 3), map[];
    var next := Copying(map[], Some(map[id := row]), 1, 1);
    assert Inserted(c, id, row) == Some(next);
    assert [id][1..] == [] && none + map[id := row] == map[id := row];
    assert CopyRows(schema, source, [], next) == (map[id := row], Finished);
  }

  lemma {:induction false} CopyRowsFinishes(schema: Schema, source: Calls, ids: seq<int>, c: Copying)
    requires SourceOk(schema, source) && (forall id | id in ids :: id in source)
    requires c.life > 3 * |ids|
    ensures CopyRows(schema, source, ids, c).1 == Finished
    decreases |ids|
  {
    hide Arriving;
    if ids != [] {
      var id := ids[0];
      assert id in ids && forall other | other in ids[1..] :: other in ids;
      var row := Arriving(schema, source[id]);
      CopyRowsFinishes(schema, source, ids[1..], if row.None? then c else Inserted(c, id, row.value).value);
    }
  }

  /** The copy is live: wherever its predecessors died, a process that survives three statements a
      call and one more ends with every coercible call in the target, unless the target's column does
      not keep the last time copied, and then it changes nothing. */
  lemma LongEnoughRunCompletes(schema: Schema, source: Calls, lives: seq<nat>, life: nat)
    requires SourceOk(schema, source) && life > 3 * |source|
    ensures var target := Runs(schema, source, lives);
            CopyRun(schema, source, target, life) ==
              if LastTimeKept(schema, source, target) then (AllCoercible(schema, source), Finished) else (target, Refused)
  {
    hide Arriving, CopyRows, Runs, IsPrefix, LastTimeKept, MaxId;
    var target := Runs(schema, source, lives);
    var ids := IdsAfter(source, MaxId(target));
    OwnCopyIsResumed(schema, source, target, life);
    ListedOnce(ids, source.Keys);
    CopyRowsFinishes(schema, source, ids, Copying(target, None, 0, life));
    RunExtendsPrefix(schema, source, target, life);
  }

  lemma {:induction false} ListedOnce(ids: seq<int>, s: set<int>)
    requires Ascending(Rising(), ids) && forall id | id in ids :: id in s
    ensures |ids| <= |s|
    decreases |ids|
  {
    if ids != [] {
      var n := |ids| - 1;
      var last := ids[n];
      assert last in ids;
      forall id | id in ids[..n] ensures id in s - {last} {
        var i :| 0 <= i < n && ids[i] == id;
        assert ids[i] in ids && Below(Rising()(ids[i]), Rising()(ids[n]));
      }
      ListedOnce(ids[..n], s - {last});
    }
  }

  // ---- what a death can cost ----

  /** How many rows the run gets into a transaction before it ends or dies. */
  function RowsInserted(schema: Schema, source: Calls, ids: seq<int>, c: Copying): nat
    requires SourceOk(schema, source)
    requires forall id | id in ids :: id in source
    decreases |ids|
  {
    if ids == [] then 0 else
      var id := ids[0];
      assert id in ids && forall other | other in ids[1..] :: other in ids;
      var row := Arriving(schema, source[id]);
      if row.None? then RowsInserted(schema, source, ids[1..], c)
      else
        var next := Inserted(c, id, row.value);
        if next.None? then 0 else 1 + RowsInserted(schema, source, ids[1..], next.value)
  }

  /** Fewer than a batch of rows wait in the open transaction, none of them committed already. */
  ghost predicate InBatch(c: Copying) { |Open(c)| == c.copied % 200 && Open(c).Keys !! c.committed.Keys }

  function HeldIds(c: Copying): set<int> { Open(c).Keys + c.committed.Keys }

  lemma OneMoreKey(calls: Calls, id: int, row: seq<Value>)
    requires id !in calls
    ensures |calls[id := row]| == |calls| + 1 && calls[id := row].Keys == calls.Keys + {id}
  {
    assert calls[id := row].Keys == calls.Keys + {id};
    assert |calls[id := row].Keys| == |calls[id := row]| && |calls.Keys| == |calls|;
  }

  lemma DisjointSizes(a: Calls, b: Calls)
    requires a.Keys !! b.Keys
    ensures |a + b| == |a| + |b| && (a + b).Keys == a.Keys + b.Keys
  {
    assert (a + b).Keys == a.Keys + b.Keys;
    assert |a.Keys| == |a| && |b.Keys| == |b| && |(a + b).Keys| == |a + b|;
  }

  lemma BatchGoesOn(rows: Calls, committed: Calls, id: int, row: seq<Value>)
    requires rows.Keys !! committed.Keys && id !in rows && id !in committed
    ensures rows[id := row].Keys !! committed.Keys && |rows[id := row]| == |rows| + 1
    ensures rows[id := row].Keys + committed.Keys == rows.Keys + committed.Keys + {id}
  {
    OneMoreKey(rows, id, row);
    OneMoreId(rows.Keys, committed.Keys, id);
  }

  lemma OneMoreId(a: set<int>, b: set<int>, id: int)
    requires a !! b && id !in a && id !in b
    ensures a + {id} !! b && a + {id} + b == a + b + {id}
  {
  }

  lemma BatchIsTakenOver(rows: Calls, committed: Calls, id: int, row: seq<Value>)
    requires rows.Keys !! committed.Keys && id !in rows && id !in committed
    ensures |committed + rows[id := row]| == |committed| + |rows| + 1
    ensures (committed + rows[id := row]).Keys == rows.Keys + committed.Keys + {id}
  {
    BatchGoesOn(rows, committed, id, row);
    DisjointSizes(committed, rows[id := row]);
  }

  lemma InsertKeepsBatches(c: Copying, id: int, row: seq<Value>)
    requires InBatch(c) && id !in HeldIds(c) && Inserted(c, id, row).Some?
    ensures var n := Inserted(c, id, row).value;
            InBatch(n) && HeldIds(n) == HeldIds(c) + {id} && |n.committed| + |Open(n)| == |c.committed| + |Open(c)| + 1
  {
    hide Inserted, Open, InBatch, HeldIds;
    InsertedMeans(c, id, row);
    var n := Inserted(c, id, row).value;
    if Open(n) == map[] && n.copied % 200 == 0 { CloseBatch(c, n, id, row); } else { GoOnWithBatch(c, n, id, row); }
  }

  lemma GoOnWithBatch(c: Copying, n: Copying, id: int, row: seq<Value>)
    requires InBatch(c) && id !in HeldIds(c) && n.copied % 200 == c.copied % 200 + 1
    requires n.committed == c.committed && Open(n) == Open(c)[id := row]
    ensures InBatch(n) && HeldIds(n) == HeldIds(c) + {id} && |n.committed| + |Open(n)| == |c.committed| + |Open(c)| + 1
  {
    hide Open;
    BatchGoesOn(Open(c), c.committed, id, row);
  }

  lemma CloseBatch(c: Copying, n: Copying, id: int, row: seq<Value>)
    requires InBatch(c) && id !in HeldIds(c) && n.copied % 200 == 0
    requires n.committed == c.committed + Open(c)[id := row] && Open(n) == map[]
    ensures InBatch(n) && HeldIds(n) == HeldIds(c) + {id} && |n.committed| + |Open(n)| == |c.committed| + |Open(c)| + 1
  {
    hide Open;
    BatchIsTakenOver(Open(c), c.committed, id, row);
    assert Open(n).Keys == {} && |Open(n)| == 0;
  }

  lemma NextRemainder(n: nat)
    ensures (n + 1) % 200 == if n % 200 == 199 then 0 else n % 200 + 1
  {
  }

  /** The row joins the open rows; every two hundredth takes them all over. */
  lemma InsertedMeans(c: Copying, id: int, row: seq<Value>)
    requires Inserted(c, id, row).Some?
    ensures var n := Inserted(c, id, row).value;
            || (n.copied % 200 == 0 && n.committed == c.committed + Open(c)[id := row] && Open(n) == map[])
            || (n.copied % 200 == c.copied % 200 + 1 && n.committed == c.committed && Open(n) == Open(c)[id := row])
  {
    NextRemainder(c.copied);
  }

  lemma EndOfBatch(c: Copying)
    requires InBatch(c)
    ensures |Open(c)| < 200 && |c.committed + Open(c)| == |c.committed| + |Open(c)|
  {
    DisjointSizes(c.committed, Open(c));
  }

  /** A run that dies loses fewer than two hundred of the rows it had inserted, and one that ends loses
      none that were. */
  lemma {:induction false} DeathLosesFewerThanABatch(schema: Schema, source: Calls, ids: seq<int>, c: Copying)
    requires SourceOk(schema, source) && Ascending(Rising(), ids) && InBatch(c)
    requires forall id | id in ids :: id in source && id !in HeldIds(c)
    ensures var (calls, status) := CopyRows(schema, source, ids, c);
            var inserted := |c.committed| + |Open(c)| + RowsInserted(schema, source, ids, c);
            |calls| <= inserted < |calls| + 200 && (status == Finished ==> |calls| == inserted)
    decreases |ids|
  {
    EndOfBatch(c);
    if ids == [] {
      assert c.pending.None? ==> c.committed + Open(c) == c.committed;
    } else {
      hide Arriving, Inserted, InBatch, HeldIds, Open, Ascending;
      var id := ids[0];
      RestIsFresh(ids, HeldIds(c));
      var row := Arriving(schema, source[id]);
      if row.None? {
        DeathLosesFewerThanABatch(schema, source, ids[1..], c);
      } else if Inserted(c, id, row.value).Some? {
        InsertKeepsBatches(c, id, row.value);
        DeathLosesFewerThanABatch(schema, source, ids[1..], Inserted(c, id, row.value).value);
      }
    }
  }

  /** So for a whole run, over whatever the target held: what it added is short of what it inserted by
      fewer than two hundred rows, and by none if it ended. */
  lemma RunLosesFewerThanABatch(schema: Schema, source: Calls, target: Calls, life: nat)
    requires SourceOk(schema, source) && Shaped(schema, target)
    requires life > 0 && CopyRun(schema, source, target, life).1 != Refused
    ensures var (calls, status) := CopyRun(schema, source, target, life);
            var inserted := RowsInserted(schema, source, IdsAfter(source, MaxId(target)), Copying(target, None, 0, life));
            |calls| <= |target| + inserted < |calls| + 200 && (status == Finished ==> |calls| == |target| + inserted)
  {
    MaxIdMeans(target);
    hide MaxId, CopyRows, RowsInserted, CallsAgreeAt;
    DeathLosesFewerThanABatch(schema, source, IdsAfter(source, MaxId(target)), Copying(target, None, 0, life));
  }

  lemma RestIsFresh(ids: seq<int>, held: set<int>)
    requires ids != [] && Ascending(Rising(), ids) && forall id | id in ids :: id !in held
    ensures ids[0] in ids && Ascending(Rising(), ids[1..])
    ensures forall id | id in ids[1..] :: id in ids && id !in held && id !in held + {ids[0]}
  {
    FirstIsOnlyOnce(ids);
    assert ids == [ids[0]] + ids[1..];
  }

  lemma FirstIsOnlyOnce(ids: seq<int>)
    requires ids != [] && Ascending(Rising(), ids)
    ensures ids[0] !in ids[1..] && Ascending(Rising(), ids[1..])
  {
    forall i | 1 <= i < |ids| ensures ids[i] != ids[0] { assert Below(Rising()(ids[0]), Rising()(ids[i])); }
  }
}
