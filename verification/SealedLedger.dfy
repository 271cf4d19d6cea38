/** The sealed ledgers of ledger.py, generic in the row type. */
module SealedLedger {
  import opened Basics
  import opened HashChain

  const CHAIN_COLUMNS := ["row_payload_json", "prev_row_hash", "row_hash"]

  /** One CSV row: the data columns and the three chain columns. */
  datatype Row<R> = Row(data: R, link: Link)

  datatype File<R> = File(columns: seq<string>, rows: seq<Row<R>>)

  datatype Seal = Seal(ledgerHash: string, rowCount: int, finalHash: string, columns: seq<string>, status: string)

  function Links<R>(rows: seq<Row<R>>): (l: seq<Link>)
    ensures |l| == |rows| && forall i | 0 <= i < |l| :: l[i] == rows[i].link
  {
    seq(|rows|, i requires 0 <= i < |rows| => rows[i].link)
  }

  function Data<R>(rows: seq<Row<R>>): (d: seq<R>)
    ensures |d| == |rows| && forall i | 0 <= i < |d| :: d[i] == rows[i].data
  {
    seq(|rows|, i requires 0 <= i < |rows| => rows[i].data)
  }

  predicate ClashesWithChain(columns: seq<string>) {
    "row_payload_json" in columns || "prev_row_hash" in columns || "row_hash" in columns
  }

  /** What `verify_sealed_ledger` accepts. */
  predicate Sealed<R>(sha: Sha, fileHash: File<R> -> string, file: File<R>, seal: Seal) {
    && fileHash(file) == seal.ledgerHash
    && file.columns == seal.columns
    && Chained(sha, Links(file.rows))
    && |file.rows| == seal.rowCount
    && LastHash(Links(file.rows)) == seal.finalHash
  }

  /** `add_hash_chain`: payload text, previous hash and hash for every row, in order. */
  method AddHashChain<R>(sha: Sha, text: R -> string, columns: seq<string>, frame: seq<R>)
    returns (r: Result<seq<Row<R>>>)
    ensures r.Failure? <==> ClashesWithChain(columns)
    ensures r.Success? ==>
              && Chained(sha, Links(r.value)) && Data(r.value) == frame
              && forall i | 0 <= i < |frame| :: r.value[i].link.text == text(frame[i])
  {
    if ClashesWithChain(columns) { return Failure("frame already contains hash-chain columns"); }
    var rows: seq<Row<R>>, previous := [], GENESIS;
    for i := 0 to |frame|
      invariant |rows| == i && Chained(sha, Links(rows)) && previous == LastHash(Links(rows))
      invariant forall j | 0 <= j < i :: rows[j].data == frame[j] && rows[j].link.text == text(frame[j])
    {
      ChainedSnoc(sha, Links(rows), text(frame[i]));
      var next := NextLink(sha, previous, text(frame[i]));
      assert Links(rows + [Row(frame[i], next)]) == Links(rows) + [next];
      rows, previous := rows + [Row(frame[i], next)], next.hash;
    }
    assert Data(rows) == frame;
    return Success(rows);
  }

  /** `write_sealed_ledger`: chain the frame, append it row by row, publish the seal last. */
  method WriteSealedLedger<R>(sha: Sha, fileHash: File<R> -> string, text: R -> string, columns: seq<string>,
                              frame: seq<R>, alreadyExists: bool, status: string)
    returns (r: Result<(File<R>, Seal)>)
    ensures r.Failure? <==> alreadyExists || ClashesWithChain(columns)
    ensures r.Success? ==>
              && Data(r.value.0.rows) == frame && r.value.0.columns == columns + CHAIN_COLUMNS
              && r.value.1.status == status && Sealed(sha, fileHash, r.value.0, r.value.1)
              && r.value.1.ledgerHash == fileHash(r.value.0) && r.value.1.columns == r.value.0.columns
              && r.value.1.rowCount == |frame|
              && r.value.1.finalHash == ChainHash(sha, seq(|frame|, i requires 0 <= i < |frame| => text(frame[i])))
  {
    if alreadyExists { return Failure("append-only ledger or seal already exists"); }
    var chained := AddHashChain(sha, text, columns, frame);
    if chained.Failure? { return Failure(chained.error); }
    var rows := chained.value;
    var file: File<R> := File(columns + CHAIN_COLUMNS, []);
    for i := 0 to |rows|
      invariant file == File(columns + CHAIN_COLUMNS, rows[..i])
    {
      file := file.(rows := file.rows + [rows[i]]);
    }
    assert rows[..|rows|] == rows;
    FinalHashIsChainHash(sha, Links(rows));
    assert Texts(Links(rows)) == seq(|frame|, i requires 0 <= i < |frame| => text(frame[i]));
    var final := if rows == [] then GENESIS else rows[|rows| - 1].link.hash;
    return Success((file, Seal(fileHash(file), |rows|, final, file.columns, status)));
  }

  method VerifySealedLedger<R>(sha: Sha, fileHash: File<R> -> string, file: File<R>, seal: Seal) returns (ok: bool)
    ensures ok <==> Sealed(sha, fileHash, file, seal)
    ensures ok ==> fileHash(file) == seal.ledgerHash && file.columns == seal.columns && |file.rows| == seal.rowCount
  {
    if fileHash(file) != seal.ledgerHash || file.columns != seal.columns { return false; }
    var chain := VerifyLinks(sha, Links(file.rows));
    if chain.Failure? { return false; }
    return chain.value.0 == seal.rowCount && chain.value.1 == seal.finalHash;
  }

  /** Two files sealed with one count and one final hash carry the same payload texts, or show a digest collision. */
  lemma SealBindsPayloads<R>(sha: Sha, fileHash: File<R> -> string, a: File<R>, b: File<R>, s: Seal, t: Seal)
    returns (x: string, y: string)
    requires forall s :: |sha(s)| == DIGEST_LENGTH
    requires Sealed(sha, fileHash, a, s) && Sealed(sha, fileHash, b, t)
    requires s.rowCount == t.rowCount && s.finalHash == t.finalHash
    ensures Texts(Links(a.rows)) == Texts(Links(b.rows)) || (x != y && sha(x) == sha(y))
    ensures s == t ==> fileHash(a) == fileHash(b) && a.columns == b.columns
  {
    x, y := TamperEvidence(sha, Links(a.rows), Links(b.rows));
  }
}
