/**
 Verification's side of a stream: batches stored once per revision, in whatever order they arrive, and
 the bars rebuilt from the revisions that are there without a gap.
 */
module BatchLog {
  import opened Wrappers
  import opened IntradayTypes
  import opened IntradayContract

  type Table = map<nat, Message>

  datatype Reply = Orphaned | Refused(reason: string) | Stored | Repeated

  predicate SameContent(m: Message, n: Message) {
    && m.bars == n.bars && m.final == n.final && m.failure == n.failure
    && m.replacing == n.replacing && m.source == n.source && m.fallback == n.fallback
  }

  /** What Verification does with a message on a known stream. */
  function Receive(table: Table, m: Message, stream: Request, currency: string): (Table, Reply) {
    var complaint := Complaint(m, stream, currency);
    if complaint.Some? then (table, Refused(complaint.value))
    else if m.revision !in table then (table[m.revision := m], Stored)
    else if SameContent(table[m.revision], m) then (table, Repeated)
    else (table, Refused("conflicting intraday revision"))
  }

  // ---- Rebuilding ----

  /** The stored batches as a query in revision order returns them. */
  ghost predicate Selected(rows: seq<Message>, table: Table) {
    && (forall i, j :: 0 <= i < j < |rows| ==> rows[i].revision < rows[j].revision)
    && (forall i :: 0 <= i < |rows| ==> rows[i].revision in table && table[rows[i].revision] == rows[i])
    && (forall r :: r in table ==> table[r] in rows)
  }

  /** The rows used: no gap before them, nothing after a final one, and no more could be used. */
  ghost predicate Used(rows: seq<Message>, k: nat) {
    && k <= |rows|
    && (forall i :: 0 <= i < k ==> rows[i].revision == i + 1)
    && (forall i :: 0 <= i < k - 1 ==> !rows[i].final)
    && (k < |rows| ==> rows[k].revision != k + 1 || (k > 0 && rows[k - 1].final))
  }

  datatype Rebuilt = Rebuilt(
    bars: map<Time, Bar>, final: bool, failure: Option<string>, replaced: bool, fallback: Option<string>)

  /** What a prefix of a stream amounts to. */
  ghost function Summary(log: seq<Message>): Rebuilt {
    var last := if log == [] then None else Some(log[|log| - 1]);
    Rebuilt(
      Replay(log),
      last.Some? && last.value.final,
      if last.Some? && last.value.final then last.value.failure else None,
      exists m :: m in log && m.replacing,
      if last.Some? then last.value.fallback else None)
  }

  method Rebuild(rows: seq<Message>) returns (r: Rebuilt, k: nat)
    ensures Used(rows, k) && r == Summary(rows[..k])
  {
    var bars: map<Time, Bar> := map[];
    var final, failure, replaced, fallback, expected := false, None, false, None, 1;
    k := 0;
    while k < |rows|
      invariant k <= |rows| && expected == k + 1 && !final && failure.None?
      invariant forall i :: 0 <= i < k ==> rows[i].revision == i + 1 && !rows[i].final
      invariant Rebuilt(bars, false, None, replaced, fallback) == Summary(rows[..k])
      decreases |rows| - k
    {
      var row := rows[k];
      if row.revision != expected {
        break;
      }
      expected := expected + 1;
      if row.replacing {
        bars, replaced := map[], true;
      }
      fallback := row.fallback;
      bars := Overwrite(bars, row.bars);
      Extends(rows, k);
      k := k + 1;
      if row.final {
        final, failure := true, row.failure;
        break;
      }
    }
    r := Rebuilt(bars, final, failure, replaced, fallback);
  }

  method Overwrite(before: map<Time, Bar>, news: seq<Bar>) returns (bars: map<Time, Bar>)
    ensures bars == before + ByStart(news)
  {
    bars := before;
    for i := 0 to |news|
      invariant bars == before + ByStart(news[..i])
    {
      assert news[..i + 1][..i] == news[..i];
      bars := bars[news[i].start := news[i]];
    }
    assert news[..|news|] == news;
  }

  lemma Extends(rows: seq<Message>, k: nat)
    requires k < |rows|
    ensures var before, row := Summary(rows[..k]), rows[k];
            Summary(rows[..k + 1])
            == Rebuilt((if row.replacing then map[] else before.bars) + ByStart(row.bars), row.final,
                       if row.final then row.failure else None, before.replaced || row.replacing, row.fallback)
  {
    assert rows[..k + 1][..k] == rows[..k];
    assert rows[..k + 1] == rows[..k] + [rows[k]];
    assert rows[k] in rows[..k + 1];
    forall m | m in rows[..k] ensures m in rows[..k + 1] {}
  }

  // ---- Against the producer's log ----

  /** Everything stored is a revision of the log, under its own number. */
  ghost predicate Mirrors(table: Table, log: seq<Message>) {
    forall r :: r in table ==> 1 <= r <= |log| && table[r] == log[r - 1]
  }

  ghost predicate LongestPrefix(table: Table, k: nat) {
    (forall r :: 1 <= r <= k ==> r in table) && k + 1 !in table
  }

  /** Whatever was delivered, the rows used are the log's first revisions, up to the first one missing. */
  lemma UsedIsPrefix(rows: seq<Message>, table: Table, log: seq<Message>, k: nat)
    requires Selected(rows, table) && Mirrors(table, log) && Used(rows, k)
    requires forall i :: 0 <= i < |log| ==> log[i].revision == i + 1
    requires forall i :: 0 <= i < |log| - 1 ==> !log[i].final
    ensures k <= |log| && rows[..k] == log[..k] && LongestPrefix(table, k)
  {
    forall i | 0 <= i < k ensures i < |log| && rows[i] == log[i] {
      assert rows[i].revision in table;
    }
    if k > 0 {
      assert rows[k - 1].revision in table;
    }
    forall r | 1 <= r <= k ensures r in table {
      assert rows[r - 1].revision == r;
    }
    if k + 1 in table {
      NextWouldBeUsed(rows, table, k);
      assert false;
    }
  }

  lemma NextWouldBeUsed(rows: seq<Message>, table: Table, k: nat)
    requires Selected(rows, table) && k <= |rows|
    requires forall i :: 0 <= i < k ==> rows[i].revision == i + 1
    requires forall r :: r in table ==> r >= 1 && table[r].revision == r
    requires k + 1 in table
    ensures k < |rows| && rows[k].revision == k + 1
  {
    var i :| 0 <= i < |rows| && rows[i] == table[k + 1];
    assert i >= k;
    assert rows[k].revision <= rows[i].revision == k + 1;
    assert rows[k].revision in table && (k > 0 ==> rows[k - 1].revision < rows[k].revision);
  }

  /** Without a replacement in between, no minute disappears from one prefix to a longer one. */
  lemma {:induction false} ReplayKeepsMinutes(log: seq<Message>, k: nat, n: nat)
    requires k <= n <= |log| && forall i :: k <= i < n ==> !log[i].replacing
    ensures Replay(log[..k]).Keys <= Replay(log[..n]).Keys
    decreases n
  {
    if k < n {
      ReplayKeepsMinutes(log, k, n - 1);
      assert log[..n][..n - 1] == log[..n - 1];
    }
  }
}
