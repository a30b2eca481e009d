/** Moving transcripts out of a column of the calls table into a plugin's own table: a ledgered
    copy, verify and drop that any boot may abandon between two statements. */
module TranscriptMigration {
  import opened Collections

  const AUTO_DROP_THRESHOLD := 10000

  datatype Step = TablesStep | CopyStep | VerifyStep | DropStep

  /** The legacy column while it is there, the plugin's rows by call, and the ledger. A null text is
      an absent entry in the first and an empty one in the second. */
  datatype Db = Db(legacy: Option<map<int, string>>, copies: map<int, string>, ledger: set<Step>)

  function Texts(rows: map<int, string>): map<int, string> { map id | id in rows && rows[id] != "" :: rows[id] }

  function Legacy(db: Db): map<int, string> { if db.legacy.Some? then Texts(db.legacy.value) else map[] }

  /** Insert-or-ignore of every non-empty legacy text. */
  function Copied(db: Db): map<int, string> { Legacy(db) + db.copies }

  // ---- one boot ----

  /** What asking for the column came back with: it is there, it is not, or nobody could tell. */
  datatype Answer = Present | Absent | Unknown

  /** Everything a boot meets: the answer, ledger writes that fail where failing is ignored, the
      number of calls if it could be counted, whether leftovers could be counted, the operator's
      flag, whether dropping works, and how many statements that change something it lives for. */
  datatype Boot = Boot(answer: Answer, ignoredFailures: set<Step>, calls: Option<nat>, leftoversReadable: bool,
                       dropLegacyColumns: bool, dropWorks: bool, writes: nat)

  datatype Running = Running(db: Db, left: nat, alive: bool)

  function Write(r: Running, after: Db): Running {
    if !r.alive || r.left == 0 then r.(alive := false) else Running(after, r.left - 1, true)
  }

  function Record(r: Running, step: Step): (n: Running)
    ensures n.db.copies == r.db.copies && n.db.legacy == r.db.legacy
    ensures n.db.ledger in {r.db.ledger, r.db.ledger + {step}} && (n.alive ==> r.alive && step in n.db.ledger)
  {
    Write(r, r.db.(ledger := r.db.ledger + {step}))
  }

  function RecordUnless(r: Running, step: Step, skipped: set<Step>): Running {
    if step in r.db.ledger || step in skipped then r else Record(r, step)
  }

  function Shortcut(r: Running, failures: set<Step>): (n: Running)
    ensures n.db.copies == r.db.copies && n.db.legacy == r.db.legacy && r.db.ledger <= n.db.ledger
  {
    RecordUnless(RecordUnless(RecordUnless(r, CopyStep, failures), VerifyStep, failures), DropStep, failures)
  }

  function CopyStage(r: Running): (n: Running)
    ensures n.db.legacy == r.db.legacy && n.db.copies in {r.db.copies, Copied(r.db)}
    ensures n.db.ledger in {r.db.ledger, r.db.ledger + {CopyStep}} && (n.alive ==> r.alive && CopyStep in n.db.ledger)
    ensures n.db.ledger != r.db.ledger ==> n.db.copies == Copied(r.db)
  {
    if CopyStep in r.db.ledger then r else Record(Write(r, r.db.(copies := Copied(r.db))), CopyStep)
  }

  function VerifyStage(r: Running): (n: Running)
    ensures n.db.copies == r.db.copies && n.db.legacy == r.db.legacy
    ensures n.db.ledger in {r.db.ledger, r.db.ledger + {VerifyStep}} && (n.alive ==> r.alive)
  {
    if VerifyStep in r.db.ledger then r
    else if |Texts(r.db.copies)| < |Legacy(r.db)| then r.(alive := false)
    else Record(r, VerifyStep)
  }

  function DropStage(r: Running, boot: Boot): (n: Running)
    ensures n.db.copies == r.db.copies && r.db.ledger <= n.db.ledger
    ensures n.db.legacy == r.db.legacy || (n.db.legacy.None? && r.alive && DropStep !in r.db.ledger)
    ensures n.db.ledger in {r.db.ledger, r.db.ledger + {DropStep}}
  {
    var calls := if boot.calls.Some? then boot.calls.value else AUTO_DROP_THRESHOLD + 1;
    if DropStep in r.db.ledger then r
    else if !boot.dropLegacyColumns && calls > AUTO_DROP_THRESHOLD then
      if boot.leftoversReadable && Legacy(r.db) == map[] then Record(r, DropStep) else r
    else Record(if boot.dropWorks then Write(r, r.db.(legacy := None)) else r, DropStep)
  }

  function AfterBoot(db: Db, boot: Boot): Db {
    var r := RecordUnless(Running(db, boot.writes, true), TablesStep, {});
    match boot.answer
    case Unknown => r.db
    case Absent => Shortcut(r, boot.ignoredFailures).db
    case Present => DropStage(VerifyStage(CopyStage(r)), boot).db
  }

  class Database {
    var db: Db
    var left: nat

    method Exec(after: Db) returns (alive: bool)
      modifies this
      ensures Running(db, left, alive) == Write(Running(old(db), old(left), true), after)
    {
      alive := left > 0;
      if alive { db, left := after, left - 1; }
    }

    method RecordMigration(step: Step) returns (alive: bool)
      modifies this
      ensures Running(db, left, alive) == Record(Running(old(db), old(left), true), step)
    {
      alive := Exec(db.(ledger := db.ledger + {step}));
    }

    method RecordAllAbsent(failures: set<Step>)
      modifies this
      ensures db == Shortcut(Running(old(db), old(left), true), failures).db
    {
      var alive;
      if CopyStep !in db.ledger && CopyStep !in failures {
        alive := RecordMigration(CopyStep);
        if !alive { return; }
      }
      if VerifyStep !in db.ledger && VerifyStep !in failures {
        alive := RecordMigration(VerifyStep);
        if !alive { return; }
      }
      if DropStep !in db.ledger && DropStep !in failures {
        alive := RecordMigration(DropStep);
      }
    }

    method DropOriginals(boot: Boot)
      modifies this
      ensures db == DropStage(Running(old(db), old(left), true), boot).db
    {
      if DropStep in db.ledger { return; }
      var alive, calls := true, AUTO_DROP_THRESHOLD + 1;
      if boot.calls.Some? { calls := boot.calls.value; }
      if !boot.dropLegacyColumns && calls > AUTO_DROP_THRESHOLD {
        var remaining := 1;
        if boot.leftoversReadable { remaining := |Legacy(db)|; }
        if remaining == 0 {
          alive := RecordMigration(DropStep);
        }
        return;
      }
      if boot.dropWorks {
        alive := Exec(db.(legacy := None));
        if !alive { return; }
      }
      alive := RecordMigration(DropStep);
    }

    method MigrateTranscripts(boot: Boot)
      modifies this
      ensures db == AfterBoot(old(db), boot)
    {
      hide Texts, Legacy, Copied, Shortcut, DropStage;
      left := boot.writes;
      var alive := true;
      if TablesStep !in db.ledger {
        alive := RecordMigration(TablesStep);
        if !alive { StoppedBootChangesNothing(db, left, boot); return; }
      }
      if boot.answer.Unknown? { return; }
      if boot.answer.Absent? {
        RecordAllAbsent(boot.ignoredFailures);
        return;
      }
      if CopyStep !in db.ledger {
        alive := Exec(db.(copies := Copied(db)));
        if !alive { StoppedBootChangesNothing(db, left, boot); return; }
        alive := RecordMigration(CopyStep);
        if !alive { StoppedBootChangesNothing(db, left, boot); return; }
      }
      if VerifyStep !in db.ledger {
        if |Texts(db.copies)| < |Legacy(db)| { StoppedBootChangesNothing(db, left, boot); return; }
        alive := RecordMigration(VerifyStep);
        if !alive { StoppedBootChangesNothing(db, left, boot); return; }
      }
      DropOriginals(boot);
    }
  }

  lemma StoppedBootChangesNothing(db: Db, left: nat, boot: Boot)
    ensures var r := Running(db, left, false);
            && CopyStage(r).db == db && VerifyStage(r).db == db && !VerifyStage(r).alive && !CopyStage(r).alive
            && Shortcut(r, boot.ignoredFailures).db == db && DropStage(r, boot).db == db
            && DropStage(CopyStage(r), boot).db == db && DropStage(VerifyStage(r), boot).db == db
            && DropStage(VerifyStage(CopyStage(r)), boot).db == db
  {
  }

  // ---- what a boot may do to the data ----

  predicate Truthful(db: Db, boot: Boot) {
    (boot.answer.Present? ==> db.legacy.Some?) && (boot.answer.Absent? ==> db.legacy.None?)
  }

  /** However far any boot gets and whatever it was told, no plugin row is altered or lost, a new one
      is a legacy text of its call, and the column is left as it was or is gone. */
  lemma BootOnlyAddsCopies(db: Db, boot: Boot)
    ensures var after := AfterBoot(db, boot);
            && (after.copies == db.copies || after.copies == Copied(db)) && Within(db.copies, after.copies)
            && (forall id | id in after.copies && id !in db.copies :: id in Legacy(db) && after.copies[id] == Legacy(db)[id])
            && after.legacy in {db.legacy, None} && db.ledger <= after.ledger
  {
    hide Texts, Legacy, Record, Shortcut, CopyStage, VerifyStage, DropStage;
    var r := RecordUnless(Running(db, boot.writes, true), TablesStep, {});
    SameColumn(r.db, db);
    assert Within(db.copies, Copied(db));
  }

  lemma SameColumn(a: Db, b: Db)
    requires a.legacy == b.legacy
    ensures Legacy(a) == Legacy(b)
  {
  }

  /** Dropping takes a recorded copy and verification, the latter with at least as many plugin texts
      as legacy ones when this boot did it, and either the operator's word or a small table. */
  lemma DropIsGuarded(db: Db, boot: Boot)
    requires AfterBoot(db, boot).legacy != db.legacy
    ensures var after := AfterBoot(db, boot);
            && boot.answer.Present? && {CopyStep, VerifyStep} <= after.ledger && DropStep !in db.ledger
            && (boot.dropLegacyColumns || (boot.calls.Some? && boot.calls.value <= AUTO_DROP_THRESHOLD))
            && (VerifyStep !in db.ledger ==> |Texts(after.copies)| >= |Legacy(db)|)
            && (CopyStep !in db.ledger ==> after.copies == Copied(db))
  {
    hide Texts, Legacy, Record, Shortcut;
    var r := RecordUnless(Running(db, boot.writes, true), TablesStep, {});
    SameColumn(r.db, db);
    SameColumn(CopyStage(r).db, db);
  }

  /** Once the copy is recorded no boot copies again. */
  lemma RecordedCopyIsFinal(db: Db, boot: Boot)
    requires CopyStep in db.ledger
    ensures AfterBoot(db, boot).copies == db.copies
  {
    hide Texts, Legacy, Record, Shortcut, VerifyStage, DropStage;
  }

  // ---- the text of one call ----

  /** What a plugin row must hold for a legacy text to count as kept: that very text; any text at all,
      the plugin being free to have a newer one; or nothing in particular, the row being there. A blank
      row keeps a text only in the last and weakest sense. */
  datatype Reading = Verbatim | AnyText | AnyRow

  predicate StandsFor(reading: Reading, row: string, text: string) {
    match reading
    case Verbatim => row == text
    case AnyText => row != ""
    case AnyRow => true
  }

  /** The text can still be found, in the legacy column or in the plugin's table. */
  predicate Kept(reading: Reading, db: Db, id: int, text: string) {
    || (id in Legacy(db) && Legacy(db)[id] == text)
    || (id in db.copies && StandsFor(reading, db.copies[id], text))
  }

  /** Dropping the column would lose this call's text, and nothing in the ledger or the table keeps
      that from happening: the copy will skip its row, or is not going to run again. */
  predicate AtRisk(reading: Reading, db: Db, id: int) {
    && id in Legacy(db) && DropStep !in db.ledger
    && if id in db.copies then !StandsFor(reading, db.copies[id], Legacy(db)[id]) else CopyStep in db.ledger
  }

  /** What a boot told the truth does to one call's text: while the column stays, nothing; when it
      drops the column, the text is lost if and only if it was at risk. */
  lemma TruthfulBootLoses(reading: Reading, db: Db, boot: Boot, id: int)
    requires Truthful(db, boot) && id in Legacy(db)
    ensures var after := AfterBoot(db, boot);
            && (after.legacy == db.legacy ==> Kept(reading, after, id, Legacy(db)[id]))
            && (after.legacy != db.legacy ==> (Kept(reading, after, id, Legacy(db)[id]) <==> !AtRisk(reading, db, id)))
  {
    LegacyTextIsNotBlank(db, id);
    hide Texts, Legacy, AfterBoot;
    var after := AfterBoot(db, boot);
    BootOnlyAddsCopies(db, boot);
    if after.legacy == db.legacy {
      SameColumn(after, db);
    } else {
      NoColumn(after);
      DropIsGuarded(db, boot);
      if CopyStep in db.ledger { RecordedCopyIsFinal(db, boot); }
    }
  }

  /** A legacy text is what the column holds for a call, where that is not blank, and nothing else. */
  lemma LegacyMeans(db: Db, id: int)
    ensures id in Legacy(db) <==> db.legacy.Some? && id in db.legacy.value && db.legacy.value[id] != ""
    ensures id in Legacy(db) ==> Legacy(db)[id] == db.legacy.value[id]
    ensures |Texts(db.copies)| <= |db.copies| && (id in Texts(db.copies) <==> id in db.copies && db.copies[id] != "")
  {
    NoMoreThan(Texts(db.copies).Keys, db.copies.Keys);
  }

  lemma LegacyTextIsNotBlank(db: Db, id: int)
    requires id in Legacy(db)
    ensures Legacy(db)[id] != "" && db.legacy.Some?
  {
  }

  lemma NoColumn(db: Db)
    requires db.legacy.None?
    ensures Legacy(db) == map[]
  {
  }

  /** A boot told the truth puts no further text at risk. */
  lemma TruthfulBootRisksNothing(reading: Reading, db: Db, boot: Boot, id: int)
    requires Truthful(db, boot) && AtRisk(reading, AfterBoot(db, boot), id)
    ensures AtRisk(reading, db, id)
  {
    hide Texts, Record, Shortcut, VerifyStage, DropStage;
    var after := AfterBoot(db, boot);
    BootOnlyAddsCopies(db, boot);
    LegacyTextIsNotBlank(after, id);
    SameColumn(after, db);
    var copied := CopyStage(RecordUnless(Running(db, boot.writes, true), TablesStep, {}));
    if boot.answer.Present? && CopyStep !in db.ledger {
      SameColumn(RecordUnless(Running(db, boot.writes, true), TablesStep, {}).db, db);
      assert CopyStep in after.ledger <==> CopyStep in copied.db.ledger;
    }
  }

  // ---- any number of boots, with the server working in between ----

  /** Between boots the plugin adds and rewrites rows but deletes none, and calls are pruned. */
  datatype Event = Boots(boot: Boot) | PluginWrites(rows: map<int, string>) | CallsPruned(ids: set<int>)

  function Apply(db: Db, event: Event): Db {
    match event
    case Boots(boot) => AfterBoot(db, boot)
    case PluginWrites(rows) => db.(copies := db.copies + rows)
    case CallsPruned(ids) => if db.legacy.None? then db else db.(legacy := Some(db.legacy.value - ids))
  }

  function After(db: Db, events: seq<Event>): Db
    decreases |events|
  {
    if events == [] then db else After(Apply(db, events[0]), events[1..])
  }

  predicate TruthfulRun(db: Db, events: seq<Event>)
    decreases |events|
  {
    events != [] ==>
      && (events[0].Boots? ==> Truthful(db, events[0].boot))
      && TruthfulRun(Apply(db, events[0]), events[1..])
  }

  predicate LeavesAlone(id: int, event: Event) {
    match event
    case Boots(_) => true
    case PluginWrites(rows) => id !in rows
    case CallsPruned(ids) => id !in ids
  }

  /** Nothing but boots touches this call. */
  predicate Untouched(id: int, events: seq<Event>) { forall i | 0 <= i < |events| :: LeavesAlone(id, events[i]) }

  /** Where a call's text stands: if it is still in the column it is this one, it can be found, and it
      is not at risk. */
  predicate Secure(reading: Reading, db: Db, id: int, text: string) {
    (id in Legacy(db) ==> Legacy(db)[id] == text) && Kept(reading, db, id, text) && !AtRisk(reading, db, id)
  }

  lemma StepKeepsSecure(reading: Reading, db: Db, event: Event, id: int, text: string)
    requires Secure(reading, db, id, text) && LeavesAlone(id, event)
    requires event.Boots? ==> Truthful(db, event.boot)
    ensures Secure(reading, Apply(db, event), id, text)
  {
    if event.Boots? {
      hide Texts, Legacy, AfterBoot, AtRisk, Truthful;
      var after := AfterBoot(db, event.boot);
      BootOnlyAddsCopies(db, event.boot);
      if after.legacy == db.legacy { SameColumn(after, db); } else { NoColumn(after); }
      if id in Legacy(db) { TruthfulBootLoses(reading, db, event.boot, id); }
      if AtRisk(reading, after, id) { TruthfulBootRisksNothing(reading, db, event.boot, id); }
    }
  }

  /** A text that is not at risk survives any number of boots told the truth, each abandoned
      anywhere, with the plugin writing other rows and other calls being pruned between them. */
  lemma {:induction false} TranscriptsSurvive(reading: Reading, db: Db, events: seq<Event>, id: int, text: string)
    requires Secure(reading, db, id, text) && TruthfulRun(db, events) && Untouched(id, events)
    ensures Secure(reading, After(db, events), id, text)
    decreases |events|
  {
    if events != [] {
      hide Secure, Apply, LeavesAlone;
      assert LeavesAlone(id, events[0]);
      StepKeepsSecure(reading, db, events[0], id, text);
      assert Untouched(id, events[1..]) by {
        assert forall i | 0 <= i < |events[1..]| :: events[1..][i] == events[i + 1];
      }
      TranscriptsSurvive(reading, Apply(db, events[0]), events[1..], id, text);
    }
  }

  // ---- the same condition, from the other side ----

  /** No run of truthful boots loses this text. */
  ghost predicate CannotBeLost(reading: Reading, db: Db, id: int, text: string) {
    forall events | TruthfulRun(db, events) && Untouched(id, events) :: Kept(reading, After(db, events), id, text)
  }

  lemma Rows(n: nat, above: int) returns (rows: map<int, string>)
    ensures |rows| == n && Texts(rows) == rows && forall id | id in rows :: id > above
  {
    rows := map[];
    for i := 0 to n
      invariant |rows| == i && Texts(rows) == rows && forall id | id in rows :: above < id <= above + i
    {
      rows := rows[above + 1 + i := "x"];
    }
  }

  lemma MoreTexts(some: map<int, string>, all: map<int, string>)
    requires Within(some, all)
    ensures |Texts(some)| <= |Texts(all)|
  {
    assert Texts(some).Keys <= Texts(all).Keys by {
      forall id | id in Texts(some) ensures id in Texts(all) {}
    }
    NoMoreThan(Texts(some).Keys, Texts(all).Keys);
  }

  /** The boot that carries the work to its end. */
  const FULL := Boot(Present, {}, Some(0), true, true, true, 6)

  /** A boot that lives through all its statements drops the column once the counts compare, if the
      table is known to be small or the operator said so. */
  lemma LongBootDrops(db: Db, boot: Boot)
    requires db.legacy.Some? && DropStep !in db.ledger && |Legacy(db)| <= |Texts(db.copies)|
    requires boot.answer.Present? && boot.writes >= 6 && boot.dropWorks
    requires boot.dropLegacyColumns || (boot.calls.Some? && boot.calls.value <= 10000)
    ensures AfterBoot(db, boot).legacy.None? && DropStep in AfterBoot(db, boot).ledger
  {
    MoreTexts(db.copies, Copied(db));
    hide Texts;
    var r := RecordUnless(Running(db, boot.writes, true), TablesStep, {});
    assert Legacy(r.db) == Legacy(db) && r.db.copies == db.copies && r.left >= 5 && Copied(r.db) == Copied(db);
    var copied := CopyStage(r);
    assert copied.alive && copied.left >= 3 && DropStep !in copied.db.ledger && Legacy(copied.db) == Legacy(db);
    var verified := VerifyStage(copied);
    assert verified.alive && verified.left >= 2 && DropStep !in verified.db.ledger;
  }

  lemma FullBootDrops(db: Db)
    requires db.legacy.Some? && DropStep !in db.ledger && |Legacy(db)| <= |Texts(db.copies)|
    ensures AfterBoot(db, FULL).legacy.None?
  {
    LongBootDrops(db, FULL);
  }

  /** A big table, or one that could not be counted, keeps its column without the operator's word, and
      the drop stays unrecorded as long as there is, or may be, something to reclaim. */
  lemma BigTableIsDeferred(db: Db, boot: Boot)
    requires boot.answer.Present? && !boot.dropLegacyColumns && (boot.calls.Some? ==> boot.calls.value > 10000)
    ensures var after := AfterBoot(db, boot);
            && after.legacy == db.legacy
            && (DropStep in after.ledger ==> DropStep in db.ledger || (boot.leftoversReadable && Legacy(db) == map[]))
  {
    hide Texts, Legacy, Record, CopyStage, VerifyStage;
    var r := RecordUnless(Running(db, boot.writes, true), TablesStep, {});
    SameColumn(VerifyStage(CopyStage(r)).db, db);
  }

  lemma OtherRowsKeepTheRisk(reading: Reading, db: Db, rows: map<int, string>, id: int)
    requires AtRisk(reading, db, id) && id !in rows
    ensures AtRisk(reading, db.(copies := db.copies + rows), id)
  {
    hide Texts;
    SameColumn(db.(copies := db.copies + rows), db);
  }

  /** A text at risk is lost by one write of other rows and one boot told the truth. */
  lemma AtRiskCanBeLost(reading: Reading, db: Db, id: int) returns (events: seq<Event>)
    requires AtRisk(reading, db, id)
    ensures TruthfulRun(db, events) && Untouched(id, events) && !Kept(reading, After(db, events), id, Legacy(db)[id])
  {
    LegacyTextIsNotBlank(db, id);
    var rows := Rows(|Legacy(db)|, id);
    MoreTexts(rows, db.copies + rows);
    LostByAFullBoot(reading, db, rows, id);
    hide Texts, Legacy, AfterBoot, After, TruthfulRun, AtRisk, Kept, Truthful;
    events := [PluginWrites(rows), Boots(FULL)];
    TwoEvents(db, events);
  }

  lemma LostByAFullBoot(reading: Reading, db: Db, rows: map<int, string>, id: int)
    requires AtRisk(reading, db, id) && id !in rows && |Legacy(db)| <= |Texts(db.copies + rows)|
    ensures var written := db.(copies := db.copies + rows);
            Truthful(written, FULL) && !Kept(reading, AfterBoot(written, FULL), id, Legacy(db)[id])
  {
    var written := db.(copies := db.copies + rows);
    LegacyTextIsNotBlank(db, id);
    OtherRowsKeepTheRisk(reading, db, rows, id);
    assert DropStep !in db.ledger;
    hide Texts, Legacy, AfterBoot, AtRisk, Kept;
    SameColumn(written, db);
    FullBootDrops(written);
    TruthfulBootLoses(reading, written, FULL, id);
  }

  /** For every call still in the column: its text can never be lost if and only if it is not at risk. */
  lemma RiskIsExact(reading: Reading, db: Db, id: int)
    requires id in Legacy(db)
    ensures CannotBeLost(reading, db, id, Legacy(db)[id]) <==> !AtRisk(reading, db, id)
  {
    hide Legacy, AtRisk, After, TruthfulRun, Untouched;
    if AtRisk(reading, db, id) {
      var events := AtRiskCanBeLost(reading, db, id);
    } else {
      forall events | TruthfulRun(db, events) && Untouched(id, events)
        ensures Kept(reading, After(db, events), id, Legacy(db)[id])
      {
        TranscriptsSurvive(reading, db, events, id, Legacy(db)[id]);
      }
    }
  }

  /** Before the copy is recorded, every text is safe if and only if no call in the column has a
      plugin row already that does not stand for its text. */
  lemma FreshMigrationIsSafeExactly(reading: Reading, db: Db)
    requires CopyStep !in db.ledger && DropStep !in db.ledger
    ensures (forall id | id in Legacy(db) :: CannotBeLost(reading, db, id, Legacy(db)[id])) <==>
            (forall id | id in Legacy(db) && id in db.copies :: StandsFor(reading, db.copies[id], Legacy(db)[id]))
  {
    hide Legacy, CannotBeLost;
    forall id | id in Legacy(db) ensures CannotBeLost(reading, db, id, Legacy(db)[id]) <==> !AtRisk(reading, db, id) {
      RiskIsExact(reading, db, id);
    }
    assert forall id | id in Legacy(db) :: AtRisk(reading, db, id) <==>
      id in db.copies && !StandsFor(reading, db.copies[id], Legacy(db)[id]);
  }

  lemma TwoEvents(db: Db, events: seq<Event>)
    requires |events| == 2 && events[0].PluginWrites? && events[1].Boots?
    requires Truthful(Apply(db, events[0]), events[1].boot)
    ensures TruthfulRun(db, events) && After(db, events) == Apply(Apply(db, events[0]), events[1])
  {
    var db' := Apply(db, events[0]);
    assert events[1..] == [events[1]] && events[1..][1..] == [];
    assert After(db', events[1..]) == After(Apply(db', events[1]), []);
  }

  /** A blank plugin row for call 1, and one truthful, uninterrupted boot: the copy skips the row,
      another row evens out the count, and the text goes with the column. */
  lemma BlankRowLosesATranscript(reading: Reading)
    requires reading != AnyRow
    ensures var db := Db(Some(map[1 := "hello"]), map[1 := "", 9 := "new"], {});
            var after := AfterBoot(db, FULL);
            && Truthful(db, FULL) && Kept(reading, db, 1, "hello")
            && after.legacy.None? && after.copies[1] == "" && !Kept(reading, after, 1, "hello")
  {
    var db := Db(Some(map[1 := "hello"]), map[1 := "", 9 := "new"], {});
    assert Legacy(db) == map[1 := "hello"] && Texts(db.copies) == map[9 := "new"];
    FullBootDrops(db);
    TruthfulBootLoses(reading, db, FULL, 1);
    BootOnlyAddsCopies(db, FULL);
  }

  // ---- a column that is there, taken for gone ----

  /** Told the column is gone when it is not, a boot puts a text at risk in one case only: the plugin
      has no row for the call, the copy gets into the ledger, and the drop does not. */
  lemma MisreadColumn(reading: Reading, db: Db, boot: Boot, id: int)
    requires id in Legacy(db) && !AtRisk(reading, db, id) && boot.answer.Absent?
    ensures var tables := if TablesStep in db.ledger then 0 else 1;
            var verify := if VerifyStep in db.ledger + boot.ignoredFailures then 0 else 1;
            var copyRecorded := CopyStep !in boot.ignoredFailures && boot.writes > tables;
            var dropRecorded := DropStep !in boot.ignoredFailures && boot.writes > tables + 1 + verify;
            CannotBeLost(reading, AfterBoot(db, boot), id, Legacy(db)[id]) <==>
              id in db.copies || DropStep in db.ledger || !copyRecorded || dropRecorded
  {
    LegacyTextIsNotBlank(db, id);
    hide Texts, Legacy, CannotBeLost;
    var after := AfterBoot(db, boot);
    SameColumn(after, db);
    RiskIsExact(reading, after, id);
  }

  /** The smallest such loss: one call, misread column, death before the last ledger entry, next boot. */
  lemma MisreadThenDeathLosesATranscript(reading: Reading)
    ensures var db := Db(Some(map[1 := "text"]), map[], {});
            var first, second := FULL.(answer := Absent, writes := 3), FULL;
            var after := AfterBoot(AfterBoot(db, first), second);
            && Kept(reading, db, 1, "text") && !AtRisk(reading, db, 1)
            && Truthful(AfterBoot(db, first), second) && !Kept(reading, after, 1, "text")
  {
    var db := Db(Some(map[1 := "text"]), map[], {});
    var middle := AfterBoot(db, FULL.(answer := Absent, writes := 3));
    assert middle == Db(db.legacy, map[], {TablesStep, CopyStep, VerifyStep});
    assert CopyStage(Running(middle, 6, true)).db == middle;
    assert 1 in Legacy(db);
  }

  // ---- a verification that fails ----

  ghost predicate NeverVerified(db: Db) {
    forall boots: seq<Boot> | TruthfulRun(db, Restarts(boots)) ::
      After(db, Restarts(boots)).copies == db.copies && VerifyStep !in After(db, Restarts(boots)).ledger
  }

  function Restarts(boots: seq<Boot>): seq<Event> { seq(|boots|, i requires 0 <= i < |boots| => Boots(boots[i])) }

  lemma ShortOfTexts(db: Db, boot: Boot)
    requires db.legacy.Some? && CopyStep in db.ledger && VerifyStep !in db.ledger && Truthful(db, boot)
    requires |Texts(db.copies)| < |Legacy(db)|
    ensures var after := AfterBoot(db, boot);
            after.legacy == db.legacy && after.copies == db.copies && VerifyStep !in after.ledger && CopyStep in after.ledger
  {
    hide Texts, Record;
    var r := RecordUnless(Running(db, boot.writes, true), TablesStep, {});
    assert Legacy(r.db) == Legacy(db) && CopyStage(r) == r;
    assert !VerifyStage(r).alive && VerifyStage(r).db == r.db;
    StoppedBootChangesNothing(r.db, r.left, boot);
  }

  lemma FirstRestart(db: Db, boots: seq<Boot>)
    requires boots != [] && TruthfulRun(db, Restarts(boots))
    ensures Truthful(db, boots[0]) && TruthfulRun(AfterBoot(db, boots[0]), Restarts(boots[1..]))
    ensures After(db, Restarts(boots)) == After(AfterBoot(db, boots[0]), Restarts(boots[1..]))
  {
    hide AfterBoot;
    assert Restarts(boots)[0] == Boots(boots[0]) && Restarts(boots)[1..] == Restarts(boots[1..]);
  }

  lemma {:induction false} BootsAloneNeverVerify(db: Db, boots: seq<Boot>)
    requires db.legacy.Some? && CopyStep in db.ledger && VerifyStep !in db.ledger && TruthfulRun(db, Restarts(boots))
    requires |Texts(db.copies)| < |Legacy(db)|
    ensures var after := After(db, Restarts(boots)); after.copies == db.copies && VerifyStep !in after.ledger
    decreases |boots|
  {
    if boots != [] {
      FirstRestart(db, boots);
      hide AfterBoot, Texts, After, TruthfulRun, Restarts;
      ShortOfTexts(db, boots[0]);
      SameColumn(AfterBoot(db, boots[0]), db);
      BootsAloneNeverVerify(AfterBoot(db, boots[0]), boots[1..]);
    }
  }

  /** With the copy recorded, restarting never copies again, and gets past the verification if and
      only if the plugin has enough texts to begin with. */
  lemma FailedVerifyIsFinal(db: Db)
    requires db.legacy.Some? && CopyStep in db.ledger && VerifyStep !in db.ledger
    ensures NeverVerified(db) <==> |Texts(db.copies)| < |Legacy(db)|
  {
    if |Texts(db.copies)| < |Legacy(db)| {
      forall boots: seq<Boot> | TruthfulRun(db, Restarts(boots))
        ensures After(db, Restarts(boots)).copies == db.copies && VerifyStep !in After(db, Restarts(boots)).ledger
      {
        BootsAloneNeverVerify(db, boots);
      }
    } else {
      EnoughTextsVerify(db);
      hide AfterBoot;
      var boots := [FULL];
      var events := Restarts(boots);
      assert events[1..] == [] && events[0] == Boots(FULL);
      assert TruthfulRun(AfterBoot(db, FULL), []) && TruthfulRun(db, Restarts(boots));
      assert After(db, events) == After(AfterBoot(db, FULL), []);
    }
  }

  lemma EnoughTextsVerify(db: Db)
    requires db.legacy.Some? && CopyStep in db.ledger && VerifyStep !in db.ledger
    requires |Texts(db.copies)| >= |Legacy(db)|
    ensures VerifyStep in AfterBoot(db, FULL).ledger
  {
    hide Texts;
    var r := RecordUnless(Running(db, 6, true), TablesStep, {});
    assert Legacy(r.db) == Legacy(db) && CopyStage(r) == r && r.left >= 5;
    assert VerifyStep in VerifyStage(r).db.ledger;
  }

  /** One call, one blank row: the first boot copies nothing, records the copy, and no later boot ever
      gets past the verification. */
  lemma BlankRowStopsTheMigration()
    ensures var db := Db(Some(map[1 := "hello"]), map[1 := ""], {});
            AfterBoot(db, FULL).copies == db.copies && CopyStep in AfterBoot(db, FULL).ledger && NeverVerified(AfterBoot(db, FULL))
  {
    var db := Db(Some(map[1 := "hello"]), map[1 := ""], {});
    BlankRowBoot(db);
    hide AfterBoot, NeverVerified;
    FailedVerifyIsFinal(AfterBoot(db, FULL));
  }

  lemma BlankRowBoot(db: Db)
    requires db == Db(Some(map[1 := "hello"]), map[1 := ""], {})
    ensures AfterBoot(db, FULL) == Db(db.legacy, db.copies, {TablesStep, CopyStep})
    ensures |Texts(db.copies)| == 0 && |Legacy(db)| == 1
  {
    assert Legacy(db) == map[1 := "hello"] && Texts(db.copies) == map[];
    hide Texts, Legacy;
    var r := RecordUnless(Running(db, 6, true), TablesStep, {});
    SameColumn(r.db, db);
    assert Copied(r.db) == db.copies;
    var copied := CopyStage(r);
    SameColumn(copied.db, db);
    assert copied.db == Db(db.legacy, db.copies, {TablesStep, CopyStep}) && !VerifyStage(copied).alive;
  }
}
