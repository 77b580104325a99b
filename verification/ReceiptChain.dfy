/** The HMAC-linked receipt log of src/vault/receipts.py. The table is a sequence of rows in `seq`
    order; the signature of a row is 64 hex digits. */
module ReceiptChain {
  const SIGNATURE_LENGTH: nat := 64
  const GENESIS: string := "genesis"

  type Signature = s: string | |s| == SIGNATURE_LENGTH witness seq(SIGNATURE_LENGTH, i => '0')

  /** What a row says and is signed for, the link to the row before included. */
  datatype Body = Body(id: string, ts: real, kind: string, model: string, actor: string, payload: string,
                       previous: string)

  datatype Row = Row(body: Body, sig: string)

  /** HMAC-SHA256 under the log's key, of the JSON text of a body: any function to signatures. */
  type Mac = Body -> Signature

  /** Two bodies of the two tables with one signature. */
  ghost predicate Clashes(mac: Mac, a: seq<Row>, b: seq<Row>) {
    exists i, j :: 0 <= i < |a| && 0 <= j < |b| && a[i].body != b[j].body && mac(a[i].body) == mac(b[j].body)
  }

  /** The signature that the next row links to. */
  function Head(rows: seq<Row>): string {
    if rows == [] then GENESIS else rows[|rows| - 1].sig
  }

  /** Row `i` links to the row before it and carries the right signature. */
  ghost predicate Linked(mac: Mac, rows: seq<Row>, i: nat)
    requires i < |rows|
  {
    rows[i].body.previous == Head(rows[..i]) && rows[i].sig == mac(rows[i].body)
  }

  ghost predicate Verifies(mac: Mac, rows: seq<Row>) {
    forall i :: 0 <= i < |rows| ==> Linked(mac, rows, i)
  }

  datatype Verdict = Intact(head: string) | ChainBreak(id: string) | BadSignature(id: string)

  class VaultReceipts {
    const mac: Mac
    var rows: seq<Row>

    constructor (mac: Mac)
      ensures this.mac == mac && rows == []
    {
      this.mac := mac;
      rows := [];
    }

    /** One writer: nothing is appended between reading the last signature and inserting. */
    method Emit(id: string, ts: real, kind: string, model: string, actor: string, payload: string)
      modifies this`rows
      ensures |rows| == |old(rows)| + 1 && rows[..|old(rows)|] == old(rows)
      ensures rows[|old(rows)|].body == Body(id, ts, kind, model, actor, payload, Head(old(rows)))
      ensures old(rows) == [] ==> rows[0].body.previous == "genesis"
      ensures old(rows) != [] ==> rows[|old(rows)|].body.previous == old(rows)[|old(rows)| - 1].sig
      ensures rows[|old(rows)|].sig == mac(rows[|old(rows)|].body) && |rows[|old(rows)|].sig| == 64
      ensures Linked(mac, rows, |old(rows)|)
      ensures Verifies(mac, old(rows)) ==> Verifies(mac, rows)
    {
      var body := Body(id, ts, kind, model, actor, payload, Head(rows));
      ghost var before := rows;
      rows := rows + [Row(body, mac(body))];
      assert rows[..|before|] == before;
      forall i | 0 <= i < |before|
        ensures Linked(mac, before, i) ==> Linked(mac, rows, i)
      {
        assert before[..i] == rows[..i];
      }
    }

    /** The head of an intact chain, or the first row that does not follow. */
    method VerifyChain() returns (v: Verdict)
      ensures v.Intact? <==> Verifies(mac, rows)
      ensures rows == [] ==> v == Intact("genesis")
      ensures v.Intact? && rows != [] ==> v == Intact(rows[|rows| - 1].sig)
      ensures match v
              case Intact(head) => head == Head(rows)
              case ChainBreak(id) => exists i :: FirstBad(mac, rows, i, id) && rows[i].body.previous != Head(rows[..i])
              case BadSignature(id) =>
                exists i :: FirstBad(mac, rows, i, id) && rows[i].body.previous == Head(rows[..i])
    {
      var previous := GENESIS;
      for i := 0 to |rows|
        invariant previous == Head(rows[..i])
        invariant forall k :: 0 <= k < i ==> Linked(mac, rows, k)
      {
        var row := rows[i];
        LinkedPrefix(mac, rows, i);
        if row.body.previous != previous {
          assert FirstBad(mac, rows, i, row.body.id);
          return ChainBreak(row.body.id);
        }
        if mac(row.body) != row.sig {
          assert FirstBad(mac, rows, i, row.body.id);
          return BadSignature(row.body.id);
        }
        previous := row.sig;
      }
      assert rows[..|rows|] == rows;
      return Intact(previous);
    }
  }

  ghost predicate FirstBad(mac: Mac, rows: seq<Row>, i: int, id: string) {
    0 <= i < |rows| && rows[i].body.id == id && Verifies(mac, rows[..i]) && !Linked(mac, rows, i)
  }

  lemma LinkedPrefix(mac: Mac, rows: seq<Row>, n: nat)
    requires n <= |rows| && forall i :: 0 <= i < n ==> Linked(mac, rows, i)
    ensures Verifies(mac, rows[..n])
  {
    forall i | 0 <= i < n
      ensures Linked(mac, rows[..n], i)
    {
      assert Linked(mac, rows, i) && rows[..n][..i] == rows[..i];
    }
  }

  /** No signature is "genesis": it has another length. */
  lemma HeadOfEmpty(mac: Mac, rows: seq<Row>)
    requires Verifies(mac, rows)
    ensures rows == [] <==> Head(rows) == GENESIS
  {
    if rows != [] { assert Linked(mac, rows, |rows| - 1); }
  }

  lemma ClashesGrow(mac: Mac, a: seq<Row>, b: seq<Row>, m: nat, n: nat)
    requires m <= |a| && n <= |b|
    ensures Clashes(mac, a[..m], b[..n]) ==> Clashes(mac, a, b)
  {
    if Clashes(mac, a[..m], b[..n]) {
      var i, j :| 0 <= i < m && 0 <= j < n
        && a[..m][i].body != b[..n][j].body && mac(a[..m][i].body) == mac(b[..n][j].body);
      assert a[i].body != b[j].body && mac(a[i].body) == mac(b[j].body);
    }
  }

  /** The head commits to the whole history: two tables that verify with the same head have the
      same rows in the same order, and so the same length, or two of their bodies clash. */
  lemma {:induction false} HeadCommits(mac: Mac, a: seq<Row>, b: seq<Row>)
    requires Verifies(mac, a) && Verifies(mac, b) && Head(a) == Head(b)
    ensures a == b || Clashes(mac, a, b)
    decreases |a|
  {
    HeadOfEmpty(mac, a);
    HeadOfEmpty(mac, b);
    if a != [] {
      var m, n := |a| - 1, |b| - 1;
      assert Linked(mac, a, m) && Linked(mac, b, n);
      hide Verifies, Clashes, Linked;
      if a[m].body == b[n].body {
        LinkedPrefix(mac, a, m);
        LinkedPrefix(mac, b, n);
        HeadCommits(mac, a[..m], b[..n]);
        assert a == a[..m] + [a[m]] && b == b[..n] + [b[n]];
        ClashesGrow(mac, a, b, m, n);
      }
    }
  }

  /** Only the head tells a log from its beginnings: every prefix of a log that verifies does
      too, with a head that differs from the log's, or two bodies of the log clash. */
  lemma TruncationShowsInHead(mac: Mac, rows: seq<Row>, n: nat)
    requires Verifies(mac, rows) && n < |rows|
    ensures Verifies(mac, rows[..n])
    ensures Head(rows[..n]) != Head(rows) || Clashes(mac, rows[..n], rows)
  {
    LinkedPrefix(mac, rows, n);
    if Head(rows[..n]) == Head(rows) { HeadCommits(mac, rows[..n], rows); }
  }

  /** A run of emits by one writer verifies, and holds the emitted entries in order. */
  datatype Entry = Entry(id: string, ts: real, kind: string, model: string, actor: string, payload: string)

  method EmitAll(log: VaultReceipts, entries: seq<Entry>)
    modifies log`rows
    requires Verifies(log.mac, log.rows)
    ensures Verifies(log.mac, log.rows)
    ensures |log.rows| == |old(log.rows)| + |entries| && log.rows[..|old(log.rows)|] == old(log.rows)
    ensures forall k :: 0 <= k < |entries| ==>
      var b := log.rows[|old(log.rows)| + k].body;
      Entry(b.id, b.ts, b.kind, b.model, b.actor, b.payload) == entries[k]
  {
    ghost var start := log.rows;
    for i := 0 to |entries|
      invariant Verifies(log.mac, log.rows)
      invariant |log.rows| == |start| + i && log.rows[..|start|] == start
      invariant forall k :: 0 <= k < i ==>
        var b := log.rows[|start| + k].body;
        Entry(b.id, b.ts, b.kind, b.model, b.actor, b.payload) == entries[k]
    {
      var e := entries[i];
      ghost var before := log.rows;
      log.Emit(e.id, e.ts, e.kind, e.model, e.actor, e.payload);
      assert forall k :: 0 <= k < |before| ==> log.rows[k] == log.rows[..|before|][k];
    }
  }
}
