/**
 * The pure parts of query handling in node.py: classifying a statement as a
 * write (`execute_query`, line 187), the checksum that travels with a
 * REPLICATE message, and what a client query and a replicated statement do
 * to the node's storage and outbox.
 */
module Replication {
  import opened Wrappers
  import opened Config
  import opened Messages

  // ---------------------------------------------------------------------
  // Upper-casing and substring search (Python's str.upper and `in`)
  // ---------------------------------------------------------------------

  /**
   * Python's upper-casing, restricted to the mappings that can produce an
   * ASCII letter: a-z, dotless i (U+0131 -> 'I') and long s (U+017F -> 'S').
   */
  function UpperChar(c: char): char
  {
    if 'a' <= c <= 'z' then (c as int - 32) as char
    else if c == '\U{131}' then 'I'
    else if c == '\U{17F}' then 'S'
    else c
  }

  function Upper(s: string): string
  {
    seq(|s|, i requires 0 <= i < |s| => UpperChar(s[i]))
  }

  /** `k` occurs in `s` starting at position `i`. */
  predicate OccursAt(s: string, k: string, i: int)
  {
    0 <= i && i + |k| <= |s| && s[i..i + |k|] == k
  }

  /** Python's `k in s` for strings, as a left-to-right scan. */
  function Contains(s: string, k: string): (b: bool)
    ensures b <==> exists i :: OccursAt(s, k, i)
    decreases |s|
  {
    if |s| < |k| then false
    else if s[..|k|] == k then (assert OccursAt(s, k, 0); true)
    else
      var rest := Contains(s[1..], k);
      ContainsShift(s, k);
      rest
  }

  /** Occurrences in `s` past position 0 are the occurrences in `s[1..]`, shifted by one. */
  lemma ContainsShift(s: string, k: string)
    requires |s| >= 1
    ensures forall j :: OccursAt(s[1..], k, j) ==> OccursAt(s, k, j + 1)
    ensures forall i :: OccursAt(s, k, i) && i != 0 ==> OccursAt(s[1..], k, i - 1)
  {
    forall j | OccursAt(s[1..], k, j)
      ensures OccursAt(s, k, j + 1)
    {
      assert s[1..][j..j + |k|] == s[j + 1..j + 1 + |k|];
    }
    forall i | OccursAt(s, k, i) && i != 0
      ensures OccursAt(s[1..], k, i - 1)
    {
      assert s[1..][i - 1..i - 1 + |k|] == s[i..i + |k|];
    }
  }

  // ---------------------------------------------------------------------
  // Classification
  // ---------------------------------------------------------------------

  const WriteKeywords: seq<string> := ["INSERT", "UPDATE", "DELETE", "CREATE", "DROP", "ALTER"]

  /**
   * A statement is a write iff its upper-cased text contains one of the
   * keywords, that is, iff some spelling of a keyword, in any letter case,
   * stands somewhere in the statement.
   */
  function IsWrite(sql: string): (w: bool)
    ensures w <==> exists k, i :: k in WriteKeywords && SpelledAt(sql, k, i)
  {
    UpperOfSlices(sql);
    exists k | k in WriteKeywords :: Contains(Upper(sql), k)
  }

  /** Upper-casing works character by character, so it commutes with slicing. */
  lemma UpperOfSlices(sql: string)
    ensures forall k: string, i :: OccursAt(Upper(sql), k, i) <==> SpelledAt(sql, k, i)
  {
    forall k: string, i
      ensures OccursAt(Upper(sql), k, i) <==> SpelledAt(sql, k, i)
    {
      if 0 <= i && i + |k| <= |sql| {
        assert Upper(sql)[i..i + |k|] == Upper(sql[i..i + |k|]);
      }
    }
  }

  /** Some spelling of `k`, in any letter case, stands in `sql` at position `i`. */
  predicate SpelledAt(sql: string, k: string, i: int)
  {
    0 <= i && i + |k| <= |sql| && Upper(sql[i..i + |k|]) == k
  }

  /**
   * Classification is a plain substring test on the upper-cased text: any
   * spelling of a keyword, anywhere in the statement, makes it a write.
   */
  lemma KeywordInAnyCase(sql: string, k: string, i: int)
    requires k in WriteKeywords
    requires SpelledAt(sql, k, i)
    ensures IsWrite(sql)
  {
  }

  /** And conversely: a write shows one of the keywords, in some case, at some position. */
  lemma WriteShowsKeyword(sql: string)
    requires IsWrite(sql)
    ensures exists k, i :: k in WriteKeywords && SpelledAt(sql, k, i)
  {
  }

  /** Two statements that differ only in letter case are classified alike. */
  lemma ClassificationIgnoresCase(a: string, b: string)
    requires Upper(a) == Upper(b)
    ensures IsWrite(a) == IsWrite(b)
  {
  }

  /** "insert", "Insert" and "INSERT" all make a write. */
  lemma InsertInAnyCaseIsWrite()
    ensures IsWrite("insert into users") && IsWrite("Insert into users") && IsWrite("INSERT INTO users")
  {
    LeadingInsert("insert into users");
    LeadingInsert("Insert into users");
    LeadingInsert("INSERT INTO users");
  }

  lemma LeadingInsert(sql: string)
    requires |sql| >= 6 && sql[0] in "iI" && sql[1] in "nN" && sql[2] in "sS" && sql[3] in "eE" && sql[4] in "rR" && sql[5] in "tT"
    ensures IsWrite(sql)
  {
    assert Upper(sql[..6]) == "INSERT";
    KeywordInAnyCase(sql, "INSERT", 0);
  }

  /** A read that merely names a table called "updates" is classified as a write. */
  lemma SelectFromUpdatesIsWrite()
    ensures IsWrite("SELECT * FROM updates")
  {
    assert Upper("update") == "UPDATE";
    KeywordInAnyCase("SELECT * FROM updates", "UPDATE", 14);
  }

  /** A keyword with a letter that never appears in `s` does not occur in it. */
  lemma LetterAbsent(s: string, k: string, j: int)
    requires 0 <= j < |k| && k[j] !in s
    ensures !Contains(s, k)
  {
    forall i
      ensures !OccursAt(s, k, i)
    {
      if 0 <= i && i + |k| <= |s| {
        assert s[i..i + |k|][j] == s[i + j];
      }
    }
  }

  /**
   * Every keyword holds one of the letters I, P, D or A, so a statement whose
   * upper-cased text has none of them is a read.
   */
  lemma ReadWithoutKeywordLetters(sql: string)
    requires forall c :: c in Upper(sql) ==> c !in "IPDA"
    ensures !IsWrite(sql)
  {
    var u := Upper(sql);
    LetterAbsent(u, "INSERT", 0);
    LetterAbsent(u, "UPDATE", 1);
    LetterAbsent(u, "DELETE", 0);
    LetterAbsent(u, "CREATE", 3);
    LetterAbsent(u, "DROP", 0);
    LetterAbsent(u, "ALTER", 0);
  }

  /** `SELECT * FROM users`, the read of test_middleware.py, is classified as a read. */
  lemma SelectFromUsersIsRead()
    ensures !IsWrite("SELECT * FROM users")
  {
    UpperOfSelect();
    ReadWithoutKeywordLetters("SELECT * FROM users");
  }

  lemma UpperOfSelect()
    ensures Upper("SELECT * FROM users") == "SELECT * FROM USERS"
  {
    var s := "SELECT * FROM users";
    assert forall i :: 0 <= i < |s| ==> Upper(s)[i] == UpperChar(s[i]);
  }

  // ---------------------------------------------------------------------
  // Checksum
  // ---------------------------------------------------------------------

  const DigestModulus: nat := 0x1_0000_0000_0000_0000_0000_0000_0000_0000

  /** A deterministic 128-bit digest of the text. */
  function Digest(s: string): (d: nat)
    ensures d < DigestModulus
  {
    if s == [] then 0 else (Digest(s[..|s| - 1]) * 31 + s[|s| - 1] as int) % DigestModulus
  }

  const HexDigits: string := "0123456789abcdef"

  /** The lowest `width` hexadecimal digits of `n`, most significant first. */
  function Hex(n: nat, width: nat): (r: string)
    ensures |r| == width
    ensures forall i :: 0 <= i < |r| ==> r[i] in HexDigits
  {
    if width == 0 then [] else Hex(n / 16, width - 1) + [HexDigits[n % 16]]
  }

  /** `calculate_checksum`: a digest of the statement shaped like an MD5 hexdigest. */
  function Checksum(sql: string): (r: string)
    ensures |r| == 32
    ensures forall i :: 0 <= i < |r| ==> r[i] in HexDigits
  {
    Hex(Digest(sql), 32)
  }

  // ---------------------------------------------------------------------
  // Storage and query results
  // ---------------------------------------------------------------------

  /** One row of a `fetchall()` with a dictionary cursor. */
  type Row = map<string, string>

  /** What the storage does with one statement: it runs (and yields rows), or raises. */
  datatype StorageOutcome = Executed(rows: seq<Row>) | Failed(message: string)

  /** The reply of `execute_query`. */
  datatype QueryResult =
    | QuerySuccess(node: int, data: Option<seq<Row>>)
    | QueryError(node: int, message: string)

  /** The REPLICATE message a node broadcasts for a write. */
  function ReplicateMessage(sql: string, origin: int): Message
  {
    Replicate(sql, Checksum(sql), origin)
  }

  /** The reply `execute_query` returns on node `self`. */
  function QueryReply(self: int, sql: string, storage: StorageOutcome): QueryResult
  {
    match storage
    case Failed(message) => QueryError(self, message)
    case Executed(rows) => QuerySuccess(self, if IsWrite(sql) then None else Some(rows))
  }

  /** The sends `execute_query` makes on node `self` whose peers are `others`. */
  function QueryTraffic(others: seq<NodeInfo>, self: int, sql: string, storage: StorageOutcome): seq<Envelope>
  {
    if storage.Executed? && IsWrite(sql) then Fanout(others, ReplicateMessage(sql, self)) else []
  }

  /** The statements the storage runs: the query itself, unless it raised. */
  function Executes(sql: string, storage: StorageOutcome): seq<string>
  {
    if storage.Executed? then [sql] else []
  }

  /** What `execute_replicated_query` runs: only a statement whose checksum matches, and only if the storage accepts it. */
  function ReplicaExecutes(sql: string, checksum: string, storage: StorageOutcome): seq<string>
  {
    if Checksum(sql) == checksum then Executes(sql, storage) else []
  }

  /** A read returns the fetched rows, tagged with the node, and sends nothing. */
  lemma ReadQuery(others: seq<NodeInfo>, self: int, sql: string, rows: seq<Row>)
    requires !IsWrite(sql)
    ensures QueryReply(self, sql, Executed(rows)) == QuerySuccess(self, Some(rows))
    ensures QueryTraffic(others, self, sql, Executed(rows)) == []
  {
  }

  /**
   * A write that the storage runs returns no data and sends exactly one
   * REPLICATE{sql, checksum(sql), origin = self} to each peer, and nothing else.
   */
  lemma WriteQuery(others: seq<NodeInfo>, self: int, sql: string, rows: seq<Row>)
    requires IsWrite(sql)
    ensures QueryReply(self, sql, Executed(rows)) == QuerySuccess(self, None)
    ensures |QueryTraffic(others, self, sql, Executed(rows))| == |others|
    ensures forall e :: e in QueryTraffic(others, self, sql, Executed(rows)) <==>
      e.target in others && e.msg == Replicate(sql, Checksum(sql), self)
  {
    FanoutMembers(others, ReplicateMessage(sql, self));
  }

  /** A storage error becomes an error reply, and nothing is broadcast. */
  lemma FailedQuery(others: seq<NodeInfo>, self: int, sql: string, message: string)
    ensures QueryReply(self, sql, Failed(message)) == QueryError(self, message)
    ensures QueryTraffic(others, self, sql, Failed(message)) == []
  {
  }

  /**
   * Checksum round trip: every REPLICATE a write produces passes the
   * receiver's check, so a receiver whose storage runs it executes exactly
   * that statement.
   */
  lemma ReplicationRoundTrip(others: seq<NodeInfo>, self: int, sql: string, rows: seq<Row>, e: Envelope, replica: StorageOutcome)
    requires e in QueryTraffic(others, self, sql, Executed(rows))
    ensures e.msg.Replicate? && e.msg.sql == sql && e.msg.origin == self
    ensures ReplicaExecutes(e.msg.sql, e.msg.checksum, replica) == Executes(sql, replica)
  {
    FanoutMembers(others, ReplicateMessage(sql, self));
  }

  /** A REPLICATE whose checksum does not match its statement runs nothing. */
  lemma CorruptedReplicateIgnored(sql: string, checksum: string, replica: StorageOutcome)
    requires checksum != Checksum(sql)
    ensures ReplicaExecutes(sql, checksum, replica) == []
  {
  }
}
