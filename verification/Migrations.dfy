/**
 * The migration ledger (`ClickHouseEventStorage.startup` in
 * backend/app/storage/clickhouse.py): pending files run in order, each is
 * recorded after its last statement, and any startup may be cut short between
 * two commands.
 */
module Migrations {

  /** A migration file; the loader keeps only files with statements. */
  datatype Migration = Migration(name: string, statements: seq<string>)

  /** What the server executed: the start of a pass, a statement, a ledger row. */
  datatype Command = Boot | Statement(name: string, k: nat) | Record(name: string)

  function Names(files: seq<Migration>): seq<string> {
    seq(|files|, i requires 0 <= i < |files| => files[i].name)
  }

  /** File names are unique; the loader lists them sorted. */
  ghost predicate DistinctNames(files: seq<Migration>) {
    forall i, j | 0 <= i < j < |files| :: files[i].name != files[j].name
  }

  function Statements(f: Migration, n: nat): seq<Command>
    requires n <= |f.statements|
  {
    seq(n, k requires 0 <= k < n => Statement(f.name, k))
  }

  /** All commands of one migration. */
  function Piece(f: Migration): seq<Command> {
    Statements(f, |f.statements|) + [Record(f.name)]
  }

  /** The commands a pass executes when nothing stops it, given the names already recorded. */
  function Plan(applied: set<string>, files: seq<Migration>): seq<Command> {
    if files == [] then [] else
      var f := files[|files| - 1];
      Plan(applied, files[..|files| - 1]) + if f.name in applied then [] else Piece(f)
  }

  /** The names in the ledger, as one query returns them. */
  function Applied(ledger: seq<string>): set<string> {
    set n | n in ledger
  }

  /** A whole pass, from the first command to the server to the last. */
  function Pass(ledger: seq<string>, files: seq<Migration>): seq<Command> {
    [Boot] + Plan(Applied(ledger), files)
  }

  /** The ledger rows written by a stretch of commands, in order. */
  function Recorded(log: seq<Command>): seq<string> {
    if log == [] then [] else
      var c := log[|log| - 1];
      Recorded(log[..|log| - 1]) + if c.Record? then [c.name] else []
  }

  lemma {:induction false} RecordedConcat(a: seq<Command>, b: seq<Command>)
    ensures Recorded(a + b) == Recorded(a) + Recorded(b)
  {
    if b == [] {
      assert a + b == a;
    } else {
      RecordedConcat(a, b[..|b| - 1]);
      assert (a + b)[..|a + b| - 1] == a + b[..|b| - 1];
    }
  }

  lemma {:induction false} StatementsRecordNothing(f: Migration, n: nat)
    requires n <= |f.statements|
    ensures Recorded(Statements(f, n)) == []
  {
    if n > 0 {
      StatementsRecordNothing(f, n - 1);
      assert Statements(f, n)[..n - 1] == Statements(f, n - 1);
    }
  }

  /**
   * From log and ledger `l0, t0` to `l1, t1`, the server executed the commands
   * up to some point, and all of them if the caller saw no failure.
   */
  ghost predicate Executed(
      l0: seq<Command>, t0: seq<string>, l1: seq<Command>, t1: seq<string>, commands: seq<Command>, ok: bool)
  {
    exists k | 0 <= k <= |commands| ::
      && l1 == l0 + commands[..k] && t1 == t0 + Recorded(commands[..k])
      && (ok ==> k == |commands|)
  }

  lemma Associates<T>(a: seq<T>, b: seq<T>, c: seq<T>)
    ensures a + (b + c) == a + b + c
  {
  }

  lemma CutInside(a: seq<Command>, b: seq<Command>, c: seq<Command>, k: nat)
    requires k <= |b|
    ensures (a + b + c)[..|a| + k] == a + b[..k]
  {
  }

  lemma ExecutedThen(l0: seq<Command>, t0: seq<string>, done: seq<Command>,
                     l1: seq<Command>, t1: seq<string>, next: seq<Command>, ok: bool, rest: seq<Command>)
    requires Executed(l0 + done, t0 + Recorded(done), l1, t1, next, ok)
    ensures Executed(l0, t0, l1, t1, done + next + rest, ok && rest == [])
    ensures ok ==> l1 == l0 + (done + next) && t1 == t0 + Recorded(done + next)
  {
    var k :| 0 <= k <= |next| && l1 == (l0 + done) + next[..k] && t1 == (t0 + Recorded(done)) + Recorded(next[..k])
             && (ok ==> k == |next|);
    var part := next[..k];
    RecordedConcat(done, part);
    Associates(l0, done, part);
    Associates(t0, Recorded(done), Recorded(part));
    assert l1 == l0 + (done + part) && t1 == t0 + Recorded(done + part);
    CutInside(done, next, rest, k);
    assert ok ==> part == next;
  }

  /** The server as the driver sees it: executed commands and the ledger table. */
  class Server {
    var log: seq<Command>
    var ledger: seq<string>

    constructor ()
      ensures log == [] && ledger == []
    {
      log, ledger := [], [];
    }

    /** Executes one command; on failure it may or may not have been executed. */
    method Execute(c: Command) returns (ok: bool)
      modifies this
      ensures Executed(old(log), old(ledger), log, ledger, [c], ok)
    {
      var reached: bool := *;
      ok := *;
      assert [c][..0] == [] && [c][..1] == [c];
      if reached || ok {
        log := log + [c];
        if c.Record? {
          ledger := ledger + [c.name];
        }
        assert log == old(log) + [c][..1] && ledger == old(ledger) + Recorded([c][..1]);
      } else {
        assert log == old(log) + [c][..0] && ledger == old(ledger) + Recorded([c][..0]);
      }
    }

    /** All statements of one file in order, then its ledger row. */
    method RunMigration(f: Migration) returns (ok: bool)
      modifies this
      ensures Executed(old(log), old(ledger), log, ledger, Piece(f), ok)
    {
      ghost var l0, t0 := log, ledger;
      assert Statements(f, 0) == [];
      for k := 0 to |f.statements|
        invariant log == l0 + Statements(f, k) && ledger == t0 + Recorded(Statements(f, k))
      {
        var c := Statement(f.name, k);
        ghost var rest := Piece(f)[k + 1..];
        assert Statements(f, k + 1) == Statements(f, k) + [c];
        assert Piece(f) == Statements(f, k) + [c] + rest;
        ok := Execute(c);
        ExecutedThen(l0, t0, Statements(f, k), log, ledger, [c], ok, rest);
        if !ok {
          return;
        }
      }
      ok := Execute(Record(f.name));
      ExecutedThen(l0, t0, Statements(f, |f.statements|), log, ledger, [Record(f.name)], ok, []);
      assert Statements(f, |f.statements|) + [Record(f.name)] + [] == Piece(f);
    }

    /** A pass over the files: executes its commands up to some point, all of them if nothing fails. */
    method Startup(files: seq<Migration>) returns (ok: bool)
      modifies this
      ensures Executed(old(log), old(ledger), log, ledger, Pass(old(ledger), files), ok)
      ensures ok && DistinctNames(files) ==> old(log) <= log && RunsPending(old(ledger), files, log[|old(log)|..])
    {
      ghost var l0, t0 := log, ledger;
      ok := Execute(Boot);
      ghost var rest := PassBegins(t0, files);
      assert l0 + [] == l0 && t0 + Recorded([]) == t0;
      ExecutedThen(l0, t0, [], log, ledger, [Boot], ok, rest);
      if !ok {
        return;
      }
      assert ledger == t0;
      var applied := Applied(ledger);
      for i := 0 to |files|
        invariant log == l0 + Pass(t0, files[..i]) && ledger == t0 + Recorded(Pass(t0, files[..i]))
      {
        rest := PassStep(t0, files, i);
        if files[i].name in applied {
          continue;
        }
        ok := RunMigration(files[i]);
        ExecutedThen(l0, t0, Pass(t0, files[..i]), log, ledger, Piece(files[i]), ok, rest);
        if !ok {
          return;
        }
      }
      ok := true;
      PassEnds(l0, t0, log, ledger, files);
      assert files[..|files|] == files && log[|l0|..] == Pass(t0, files);
      if DistinctNames(files) {
        PassRunsPending(t0, files);
      }
    }
  }

  lemma PassBegins(ledger: seq<string>, files: seq<Migration>) returns (rest: seq<Command>)
    ensures [] + [Boot] + rest == Pass(ledger, files)
    ensures [] + [Boot] == Pass(ledger, files[..0])
    ensures Recorded([Boot]) == []
  {
    rest := Pass(ledger, files)[1..];
    assert [Boot][..0] == [];
  }

  lemma PlanOneMore(applied: set<string>, files: seq<Migration>, i: nat)
    requires i < |files|
    ensures Plan(applied, files[..i + 1])
         == Plan(applied, files[..i]) + if files[i].name in applied then [] else Piece(files[i])
  {
    assert files[..i + 1][..i] == files[..i];
  }

  lemma PassStep(ledger: seq<string>, files: seq<Migration>, i: nat) returns (rest: seq<Command>)
    requires i < |files|
    ensures if files[i].name in Applied(ledger) then Pass(ledger, files[..i + 1]) == Pass(ledger, files[..i])
            else && Pass(ledger, files[..i + 1]) == Pass(ledger, files[..i]) + Piece(files[i])
                 && Pass(ledger, files) == Pass(ledger, files[..i]) + Piece(files[i]) + rest
  {
    var applied := Applied(ledger);
    var so, piece := Plan(applied, files[..i]), Piece(files[i]);
    PlanOneMore(applied, files, i);
    PlanPrefix(applied, files, i + 1);
    rest := Plan(applied, files)[|Plan(applied, files[..i + 1])|..];
    if files[i].name !in applied {
      assert Plan(applied, files) == so + piece + rest;
      Associates([Boot], so, piece);
      Associates([Boot], so + piece, rest);
    }
  }

  lemma PassEnds(l0: seq<Command>, t0: seq<string>, l1: seq<Command>, t1: seq<string>, files: seq<Migration>)
    requires l1 == l0 + Pass(t0, files[..|files|]) && t1 == t0 + Recorded(Pass(t0, files[..|files|]))
    ensures Executed(l0, t0, l1, t1, Pass(t0, files), true)
  {
    assert files[..|files|] == files;
    var pass := Pass(t0, files);
    assert pass[..|pass|] == pass;
  }

  lemma {:induction false} PlanPrefix(applied: set<string>, files: seq<Migration>, i: nat)
    requires i <= |files|
    ensures Plan(applied, files[..i]) <= Plan(applied, files)
  {
    if i < |files| {
      PlanPrefix(applied, files[..|files| - 1], i);
      assert files[..|files| - 1][..i] == files[..i];
    } else {
      assert files[..i] == files;
    }
  }

  // ---------------------------------------------------------------- //
  // Every run of startups, crashes included
  // ---------------------------------------------------------------- //

  /** The log entry at `p` records a file whose statements are the entries just before it, all and in order. */
  ghost predicate RecordsWholePass(files: seq<Migration>, log: seq<Command>, p: int)
    requires 0 <= p < |log|
  {
    exists f | f in files ::
      var n := |f.statements|;
      log[p] == Record(f.name) && n <= p && forall k | 0 <= k < n :: log[p - n + k] == Statement(f.name, k)
  }

  /** Entry `q` touches the file that entry `p` recorded. */
  predicate Touches(log: seq<Command>, p: nat, q: nat)
    requires p < |log| && q < |log|
  {
    log[p].Record? && !log[q].Boot? && log[q].name == log[p].name
  }

  /**
   * The state a sequence of startups can leave: the ledger is a prefix of the
   * files in order; a row was written only after a whole uninterrupted run of
   * its file; and nothing of a recorded file was executed again.
   */
  ghost predicate Sound(files: seq<Migration>, log: seq<Command>, ledger: seq<string>) {
    && ledger <= Names(files)
    && ledger == Recorded(log)
    && RecordsAreEarned(files, log)
    && NothingRerun(log)
  }

  ghost predicate RecordsAreEarned(files: seq<Migration>, log: seq<Command>) {
    forall p | 0 <= p < |log| && log[p].Record? :: RecordsWholePass(files, log, p)
  }

  ghost predicate NothingRerun(log: seq<Command>) {
    forall p, q | 0 <= p < q < |log| :: !Touches(log, p, q)
  }

  lemma {:induction false} RecordedHas(log: seq<Command>, p: nat)
    requires p < |log| && log[p].Record?
    ensures log[p].name in Recorded(log)
  {
    if p < |log| - 1 {
      RecordedHas(log[..|log| - 1], p);
    }
  }

  lemma WholePassStays(files: seq<Migration>, log: seq<Command>, more: seq<Command>, p: nat)
    requires p < |log| && RecordsWholePass(files, log, p)
    ensures RecordsWholePass(files, log + more, p)
  {
    var g :| g in files && log[p] == Record(g.name) && |g.statements| <= p
             && forall k | 0 <= k < |g.statements| :: log[p - |g.statements| + k] == Statement(g.name, k);
    assert forall k | 0 <= k < |g.statements| :: (log + more)[p - |g.statements| + k] == Statement(g.name, k);
  }

  lemma PieceIsWholePass(files: seq<Migration>, log: seq<Command>, f: Migration)
    requires f in files
    ensures RecordsWholePass(files, log + Piece(f), |log| + |f.statements|)
  {
    var n := |f.statements|;
    assert forall k | 0 <= k < n :: (log + Piece(f))[|log| + k] == Statement(f.name, k);
  }

  /** Commands of a file that is not yet recorded touch no recorded file. */
  lemma PieceTouchesNothing(
      files: seq<Migration>, log: seq<Command>, ledger: seq<string>, part: seq<Command>, p: nat, q: nat)
    requires Sound(files, log, ledger) && DistinctNames(files) && |ledger| < |files|
    requires part <= Piece(files[|ledger|]) && p < q < |log + part|
    ensures !Touches(log + part, p, q)
  {
    if q < |log| {
      assert !Touches(log, p, q);
    } else if p < |log| && log[p].Record? {
      RecordedHas(log, p);
      var i :| 0 <= i < |ledger| && ledger[i] == log[p].name;
      assert files[i].name == Names(files)[i];
      assert files[i].name != files[|ledger|].name;
    }
  }

  lemma PieceEarnsItsRecord(files: seq<Migration>, log: seq<Command>, f: Migration, k: nat)
    requires RecordsAreEarned(files, log) && f in files && k <= |Piece(f)|
    ensures RecordsAreEarned(files, log + Piece(f)[..k])
  {
    var part := Piece(f)[..k];
    forall p | 0 <= p < |log + part| && (log + part)[p].Record? ensures RecordsWholePass(files, log + part, p) {
      if p < |log| {
        WholePassStays(files, log, part, p);
      } else {
        assert part == Piece(f);
        PieceIsWholePass(files, log, f);
      }
    }
  }

  lemma PieceRerunsNothing(files: seq<Migration>, log: seq<Command>, ledger: seq<string>, part: seq<Command>)
    requires Sound(files, log, ledger) && DistinctNames(files) && |ledger| < |files|
    requires part <= Piece(files[|ledger|])
    ensures NothingRerun(log + part)
  {
    forall p, q | 0 <= p < q < |log + part| ensures !Touches(log + part, p, q) {
      PieceTouchesNothing(files, log, ledger, part, p, q);
    }
  }

  /** Part of a file, or all of it with its ledger row, keeps the state sound. */
  lemma SoundAfterPiece(files: seq<Migration>, log: seq<Command>, ledger: seq<string>, k: nat)
    requires Sound(files, log, ledger) && DistinctNames(files) && |ledger| < |files|
    requires k <= |Piece(files[|ledger|])|
    ensures SoundWith(files, log, ledger, Piece(files[|ledger|])[..k])
  {
    var f := files[|ledger|];
    var part := Piece(f)[..k];
    PieceEarnsItsRecord(files, log, f, k);
    PieceRerunsNothing(files, log, ledger, part);
    RecordedConcat(log, part);
    PieceRecords(f, k);
    assert Names(files)[|ledger|] == f.name;
  }

  lemma PieceRecords(f: Migration, k: nat)
    requires k <= |Piece(f)|
    ensures Recorded(Piece(f)[..k]) == if k == |Piece(f)| then [f.name] else []
  {
    var n := |f.statements|;
    if k <= n {
      assert Piece(f)[..k] == Statements(f, k);
      StatementsRecordNothing(f, k);
    } else {
      assert Piece(f)[..k] == Piece(f) && Piece(f)[..n] == Statements(f, n);
      StatementsRecordNothing(f, n);
    }
  }

  lemma SoundAfterBoot(files: seq<Migration>, log: seq<Command>, ledger: seq<string>)
    requires Sound(files, log, ledger)
    ensures SoundWith(files, log, ledger, [Boot]) && ledger + Recorded([Boot]) == ledger
  {
    assert [Boot][..0] == [];
    assert (log + [Boot])[..|log|] == log;
    forall p | 0 <= p < |log + [Boot]| && (log + [Boot])[p].Record? ensures RecordsWholePass(files, log + [Boot], p) {
      WholePassStays(files, log, [Boot], p);
    }
    forall p, q | 0 <= p < q < |log + [Boot]| ensures !Touches(log + [Boot], p, q) {
      assert q < |log| ==> !Touches(log, p, q);
    }
  }

  /** The commands of files `i` up to `n`. */
  function Pieces(files: seq<Migration>, i: nat, n: nat): seq<Command>
    requires i <= n <= |files|
    decreases n - i
  {
    if i == n then [] else Piece(files[i]) + Pieces(files, i + 1, n)
  }

  lemma {:induction false} PiecesAppend(files: seq<Migration>, i: nat, n: nat)
    requires i <= n < |files|
    ensures Pieces(files, i, n + 1) == Pieces(files, i, n) + Piece(files[n])
    decreases n - i
  {
    if i == n {
      assert Pieces(files, n + 1, n + 1) == [];
    } else {
      PiecesAppend(files, i + 1, n);
      assert Piece(files[i]) + (Pieces(files, i + 1, n) + Piece(files[n]))
          == Piece(files[i]) + Pieces(files, i + 1, n) + Piece(files[n]);
    }
  }

  lemma PlanWithLast(applied: set<string>, front: seq<Migration>, f: Migration)
    ensures Plan(applied, front + [f]) == Plan(applied, front) + if f.name in applied then [] else Piece(f)
  {
    assert (front + [f])[..|front|] == front;
  }

  /** Of distinct names, exactly the first `i` are among the first `i`. */
  lemma RecordedFirst(files: seq<Migration>, i: nat, k: nat)
    requires DistinctNames(files) && i <= |files| && k < |files|
    ensures files[k].name in Applied(Names(files)[..i]) <==> k < i
  {
    if k < i {
      assert Names(files)[..i][k] == files[k].name;
    } else {
      forall j | 0 <= j < i ensures Names(files)[..i][j] != files[k].name {
        assert files[j].name != files[k].name;
      }
    }
  }

  /** A pass over the first `n` files runs those from the `i`-th on. */
  ghost predicate PlansFrom(applied: set<string>, files: seq<Migration>, i: nat, n: nat) {
    n <= |files| && Plan(applied, files[..n]) == if n <= i then [] else Pieces(files, i, n)
  }

  lemma {:induction false} PlansOneMore(applied: set<string>, files: seq<Migration>, i: nat, n: nat)
    requires n < |files| && PlansFrom(applied, files, i, n) && (files[n].name in applied <==> n < i)
    ensures PlansFrom(applied, files, i, n + 1)
  {
    PlanWithLast(applied, files[..n], files[n]);
    assert files[..n + 1] == files[..n] + [files[n]];
    if n >= i {
      PiecesAppend(files, i, n);
    }
  }

  lemma {:induction false} PlanSkipsApplied(applied: set<string>, files: seq<Migration>, i: nat, n: nat)
    requires n <= |files| && forall k | 0 <= k < |files| :: files[k].name in applied <==> k < i
    ensures PlansFrom(applied, files, i, n)
  {
    if n > 0 {
      PlanSkipsApplied(applied, files, i, n - 1);
      PlansOneMore(applied, files, i, n - 1);
    }
  }

  /** With the first `i` files recorded, a pass over the first `n` runs exactly the files in between. */
  lemma PlanRunsPendingFiles(files: seq<Migration>, i: nat, n: nat)
    requires DistinctNames(files) && i <= |files| && n <= |files|
    ensures Plan(Applied(Names(files)[..i]), files[..n]) == if n <= i then [] else Pieces(files, i, n)
  {
    forall k | 0 <= k < |files| ensures files[k].name in Applied(Names(files)[..i]) <==> k < i {
      RecordedFirst(files, i, k);
    }
    PlanSkipsApplied(Applied(Names(files)[..i]), files, i, n);
  }

  /** Executing `part` more keeps the state sound. */
  ghost predicate SoundWith(files: seq<Migration>, log: seq<Command>, ledger: seq<string>, part: seq<Command>) {
    Sound(files, log + part, ledger + Recorded(part))
  }

  lemma SoundWithBoth(files: seq<Migration>, log: seq<Command>, ledger: seq<string>, a: seq<Command>, b: seq<Command>)
    requires SoundWith(files, log + a, ledger + Recorded(a), b)
    ensures SoundWith(files, log, ledger, a + b)
    ensures ledger + Recorded(a + b) == ledger + Recorded(a) + Recorded(b)
  {
    RecordedConcat(a, b);
    Associates(log, a, b);
    Associates(ledger, Recorded(a), Recorded(b));
  }

  lemma SoundWithNothing(files: seq<Migration>, log: seq<Command>, ledger: seq<string>)
    requires Sound(files, log, ledger)
    ensures SoundWith(files, log, ledger, []) && ledger + Recorded([]) == ledger
  {
    assert log + [] == log && ledger + [] == ledger;
  }

  lemma CutOfBoth(a: seq<Command>, b: seq<Command>, k: nat)
    requires k <= |a| + |b|
    ensures (a + b)[..k] == if k < |a| then a[..k] else a + b[..k - |a|]
  {
  }

  lemma SoundAfterWholePiece(files: seq<Migration>, log: seq<Command>, ledger: seq<string>)
    requires Sound(files, log, ledger) && DistinctNames(files) && |ledger| < |files|
    ensures var piece := Piece(files[|ledger|]);
            Sound(files, log + piece, ledger + Recorded(piece)) && |ledger + Recorded(piece)| == |ledger| + 1
  {
    var piece := Piece(files[|ledger|]);
    SoundAfterPiece(files, log, ledger, |piece|);
    PieceRecords(files[|ledger|], |piece|);
    assert piece[..|piece|] == piece;
  }

  lemma {:induction false} SoundFromFirstPiece(
      files: seq<Migration>, log: seq<Command>, ledger: seq<string>, n: nat, k: nat)
    requires |ledger| < n <= |files|
    requires |Piece(files[|ledger|])| <= k <= |Pieces(files, |ledger|, n)|
    requires var piece, rest := Piece(files[|ledger|]), Pieces(files, |ledger| + 1, n);
             SoundWith(files, log + piece, ledger + Recorded(piece), rest[..k - |piece|])
    ensures var piece, rest := Piece(files[|ledger|]), Pieces(files, |ledger| + 1, n);
            var cut := Pieces(files, |ledger|, n)[..k];
            && SoundWith(files, log, ledger, cut)
            && ledger + Recorded(cut) == ledger + Recorded(piece) + Recorded(rest[..k - |piece|])
  {
    var piece, rest := Piece(files[|ledger|]), Pieces(files, |ledger| + 1, n);
    CutOfBoth(piece, rest, k);
    SoundWithBoth(files, log, ledger, piece, rest[..k - |piece|]);
  }

  /** Cutting the pending files short anywhere keeps the state sound. */
  lemma {:induction false} SoundAfterPieces(
      files: seq<Migration>, log: seq<Command>, ledger: seq<string>, n: nat, k: nat)
    requires Sound(files, log, ledger) && DistinctNames(files) && |ledger| <= n <= |files|
    requires k <= |Pieces(files, |ledger|, n)|
    ensures SoundWith(files, log, ledger, Pieces(files, |ledger|, n)[..k])
    ensures k == |Pieces(files, |ledger|, n)| ==> |ledger + Recorded(Pieces(files, |ledger|, n)[..k])| == n
    decreases n - |ledger|
  {
    var i := |ledger|;
    if i == n {
      SoundWithNothing(files, log, ledger);
    } else {
      var piece := Piece(files[i]);
      if k < |piece| {
        CutOfBoth(piece, Pieces(files, i + 1, n), k);
        SoundAfterPiece(files, log, ledger, k);
      } else {
        SoundAfterWholePiece(files, log, ledger);
        SoundAfterPieces(files, log + piece, ledger + Recorded(piece), n, k - |piece|);
        SoundFromFirstPiece(files, log, ledger, n, k);
      }
    }
  }

  /** One startup sees the first `n` files and is cut short after `executed` commands of its pass. */
  datatype Start = Start(n: nat, executed: nat)

  /** Log and ledger after a sequence of startups, each of which may crash. */
  ghost function Outcome(files: seq<Migration>, starts: seq<Start>): (seq<Command>, seq<string>) {
    if starts == [] then ([], []) else
      var (log, ledger) := Outcome(files, starts[..|starts| - 1]);
      var part := Part(files, ledger, starts[|starts| - 1]);
      (log + part, ledger + Recorded(part))
  }

  /** The commands a startup executes. */
  function Part(files: seq<Migration>, ledger: seq<string>, a: Start): seq<Command> {
    var pass := Pass(ledger, if a.n <= |files| then files[..a.n] else files);
    if a.executed <= |pass| then pass[..a.executed] else pass
  }

  lemma PassOfPending(files: seq<Migration>, ledger: seq<string>, n: nat)
    requires DistinctNames(files) && ledger <= Names(files) && n <= |files|
    ensures Pass(ledger, files[..n]) == [Boot] + if n <= |ledger| then [] else Pieces(files, |ledger|, n)
  {
    assert ledger == Names(files)[..|ledger|];
    PlanRunsPendingFiles(files, |ledger|, n);
  }

  lemma SoundAfterCut(files: seq<Migration>, log: seq<Command>, ledger: seq<string>, n: nat, k: nat)
    requires DistinctNames(files) && Sound(files, log, ledger) && n <= |files|
    requires k <= |Pass(ledger, files[..n])|
    ensures SoundWith(files, log, ledger, Pass(ledger, files[..n])[..k])
    ensures k == |Pass(ledger, files[..n])| && n == |files|
            ==> |ledger + Recorded(Pass(ledger, files[..n])[..k])| == |files|
  {
    PassOfPending(files, ledger, n);
    var rest := if n <= |ledger| then [] else Pieces(files, |ledger|, n);
    CutOfBoth([Boot], rest, k);
    if k == 0 {
      SoundWithNothing(files, log, ledger);
    } else {
      SoundAfterBoot(files, log, ledger);
      SoundAfterRest(files, log + [Boot], ledger, n, k - 1);
      SoundWithBoth(files, log, ledger, [Boot], rest[..k - 1]);
    }
  }

  lemma SoundAfterRest(files: seq<Migration>, log: seq<Command>, ledger: seq<string>, n: nat, k: nat)
    requires DistinctNames(files) && Sound(files, log, ledger) && n <= |files|
    requires k <= |if n <= |ledger| then [] else Pieces(files, |ledger|, n)|
    ensures var rest := if n <= |ledger| then [] else Pieces(files, |ledger|, n);
            && SoundWith(files, log, ledger, rest[..k])
            && (k == |rest| && n == |files| ==> |ledger + Recorded(rest[..k])| == |files|)
  {
    if n <= |ledger| {
      SoundWithNothing(files, log, ledger);
    } else {
      SoundAfterPieces(files, log, ledger, n, k);
    }
  }

  lemma SoundAfterStartup(files: seq<Migration>, log: seq<Command>, ledger: seq<string>, a: Start)
    requires DistinctNames(files) && Sound(files, log, ledger)
    ensures SoundWith(files, log, ledger, Part(files, ledger, a))
    ensures a.n >= |files| && a.executed >= |Pass(ledger, files)|
            ==> ledger + Recorded(Part(files, ledger, a)) == Names(files)
  {
    var n := if a.n <= |files| then a.n else |files|;
    assert files[..|files|] == files;
    var pass := Pass(ledger, files[..n]);
    var k := if a.executed <= |pass| then a.executed else |pass|;
    assert pass[..|pass|] == pass;
    SoundAfterCut(files, log, ledger, n, k);
  }

  /**
   * However often startups crash, and however many of the files each of them
   * saw, the state stays sound; one startup that sees all files and is not cut
   * short completes the ledger, and the next pass then executes no migration.
   */
  lemma {:induction false} StartupsAreSound(files: seq<Migration>, starts: seq<Start>)
    requires DistinctNames(files)
    ensures var (log, ledger) := Outcome(files, starts); Sound(files, log, ledger)
    ensures starts != [] && starts[|starts| - 1].n >= |files|
            && starts[|starts| - 1].executed >= |Pass(Outcome(files, starts[..|starts| - 1]).1, files)|
            ==> Outcome(files, starts).1 == Names(files)
    ensures Pass(Names(files), files) == [Boot]
  {
    PlanRunsPendingFiles(files, |files|, |files|);
    assert Names(files)[..|files|] == Names(files) && files[..|files|] == files;
    if starts != [] {
      var front := starts[..|starts| - 1];
      StartupsAreSound(files, front);
      var (log, ledger) := Outcome(files, front);
      SoundAfterStartup(files, log, ledger, starts[|starts| - 1]);
    }
  }

  /**
   * What `Server.Startup` promises keeps the state sound, whichever first files
   * it saw and wherever it stopped; seeing all files and not stopping completes
   * the ledger.
   */
  lemma StartupKeepsSound(
      files: seq<Migration>, n: nat, l0: seq<Command>, t0: seq<string>, l1: seq<Command>, t1: seq<string>,
      ok: bool)
    requires DistinctNames(files) && Sound(files, l0, t0) && n <= |files|
    requires Executed(l0, t0, l1, t1, Pass(t0, files[..n]), ok)
    ensures Sound(files, l1, t1)
    ensures ok && n == |files| ==> t1 == Names(files)
  {
    var pass := Pass(t0, files[..n]);
    var k :| 0 <= k <= |pass| && l1 == l0 + pass[..k] && t1 == t0 + Recorded(pass[..k]) && (ok ==> k == |pass|);
    SoundAfterCut(files, l0, t0, n, k);
  }

  // ---------------------------------------------------------------- //
  // What a completed pass executes
  // ---------------------------------------------------------------- //

  /** The only commands of file `f` in `part` are its statements, each once and in order, and then its row at `p`. */
  ghost predicate RunsAt(part: seq<Command>, f: Migration, p: int) {
    var n := |f.statements|;
    && n <= p < |part|
    && part[p] == Record(f.name)
    && (forall k | 0 <= k < n :: part[p - n + k] == Statement(f.name, k))
    && (forall q | 0 <= q < |part| && !part[q].Boot? && part[q].name == f.name :: p - n <= q <= p)
  }

  ghost predicate NeverNamed(part: seq<Command>, name: string) {
    forall q | 0 <= q < |part| :: !part[q].Boot? ==> part[q].name != name
  }

  /** `part` runs each file missing from the ledger, whole and once, and no other. */
  ghost predicate RunsPending(ledger: seq<string>, files: seq<Migration>, part: seq<Command>) {
    && (forall f | f in files && f.name !in ledger :: exists p :: RunsAt(part, f, p))
    && (forall q | 0 <= q < |part| :: !part[q].Boot? ==>
          part[q].name !in ledger && exists f :: f in files && f.name == part[q].name)
  }

  lemma PieceRuns(so: seq<Command>, f: Migration)
    requires NeverNamed(so, f.name)
    ensures RunsAt(so + Piece(f), f, |so| + |f.statements|)
  {
    var part, n := so + Piece(f), |f.statements|;
    assert part[|so| + n] == Record(f.name);
    forall k | 0 <= k < n ensures part[|so| + k] == Statement(f.name, k) {
      assert part[|so| + k] == Piece(f)[k];
    }
  }

  lemma StillRuns(so: seq<Command>, more: seq<Command>, f: Migration, p: int)
    requires RunsAt(so, f, p) && NeverNamed(more, f.name)
    ensures RunsAt(so + more, f, p)
  {
    var part := so + more;
    forall q | |so| <= q < |part| ensures part[q].Boot? || part[q].name != f.name {
      assert part[q] == more[q - |so|];
    }
  }

  lemma PieceNames(f: Migration, q: nat)
    requires q < |Piece(f)|
    ensures !Piece(f)[q].Boot? && Piece(f)[q].name == f.name
  {
  }

  lemma {:induction false} PlanNames(applied: set<string>, files: seq<Migration>, q: nat)
    requires q < |Plan(applied, files)|
    ensures var c := Plan(applied, files)[q];
            !c.Boot? && c.name !in applied && exists f :: f in files && f.name == c.name
  {
    var front, f := files[..|files| - 1], files[|files| - 1];
    var so := Plan(applied, front);
    if q < |so| {
      PlanNames(applied, front, q);
      var g :| g in front && g.name == so[q].name;
      assert g in files;
    } else {
      PieceNames(f, q - |so|);
      assert f in files;
    }
  }

  /** The plan for all files but the last does not name the last. */
  lemma {:induction false} PlanOfOthers(applied: set<string>, files: seq<Migration>)
    requires DistinctNames(files) && files != []
    ensures NeverNamed(Plan(applied, files[..|files| - 1]), files[|files| - 1].name)
  {
    var front := files[..|files| - 1];
    var so := Plan(applied, front);
    forall q | 0 <= q < |so| ensures !so[q].Boot? ==> so[q].name != files[|files| - 1].name {
      PlanNames(applied, front, q);
      var g :| g in front && g.name == so[q].name;
      var j :| 0 <= j < |front| && front[j] == g;
      assert files[j].name != files[|files| - 1].name;
    }
  }

  lemma {:induction false} PlanRuns(applied: set<string>, files: seq<Migration>, f: Migration) returns (p: nat)
    requires DistinctNames(files) && f in files && f.name !in applied
    ensures RunsAt(Plan(applied, files), f, p)
  {
    var front, last := files[..|files| - 1], files[|files| - 1];
    var so := Plan(applied, front);
    assert files == front + [last];
    if f == last {
      PlanOfOthers(applied, files);
      PieceRuns(so, f);
      p := |so| + |f.statements|;
    } else {
      p := PlanRuns(applied, front, f);
      var j :| 0 <= j < |front| && front[j] == f;
      assert files[j].name != files[|files| - 1].name;
      var more := if last.name in applied then [] else Piece(last);
      forall q | 0 <= q < |more| && !more[q].Boot? ensures more[q].name != f.name {
        PieceNames(last, q);
      }
      StillRuns(so, more, f, p);
    }
  }

  lemma RunsAfterBoot(part: seq<Command>, f: Migration, p: int)
    requires RunsAt(part, f, p)
    ensures RunsAt([Boot] + part, f, p + 1)
  {
    var all, n := [Boot] + part, |f.statements|;
    forall k | 0 <= k < n ensures all[p + 1 - n + k] == Statement(f.name, k) {
      assert all[p + 1 - n + k] == part[p - n + k];
    }
    forall q | 0 <= q < |all| && !all[q].Boot? && all[q].name == f.name ensures p + 1 - n <= q <= p + 1 {
      assert q > 0 ==> all[q] == part[q - 1];
    }
  }

  /** A pass that nothing stops runs each pending file, whole and once, and no other. */
  lemma PassRunsPending(ledger: seq<string>, files: seq<Migration>)
    requires DistinctNames(files)
    ensures RunsPending(ledger, files, Pass(ledger, files))
  {
    var plan := Plan(Applied(ledger), files);
    forall f | f in files && f.name !in ledger ensures exists p :: RunsAt(Pass(ledger, files), f, p) {
      var p := PlanRuns(Applied(ledger), files, f);
      RunsAfterBoot(plan, f, p);
      assert RunsAt(Pass(ledger, files), f, p + 1);
    }
    forall q | 0 <= q < |Pass(ledger, files)| && !Pass(ledger, files)[q].Boot?
      ensures Pass(ledger, files)[q].name !in ledger
      ensures exists f :: f in files && f.name == Pass(ledger, files)[q].name
    {
      PlanNames(Applied(ledger), files, q - 1);
    }
  }
}
