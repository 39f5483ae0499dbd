/**
 Collecting the rows of a query and cutting their JSON array down to a size limit.

 A row stands here as the text of its JSON object, in bytes; an object is never empty text.
 */
module SqlJson {
  function Joined(rows: seq<string>): string {
    if rows == [] then ""
    else if |rows| == 1 then rows[0]
    else Joined(rows[..|rows| - 1]) + "," + rows[|rows| - 1]
  }

  /** Rows follow one another with a comma between them. */
  lemma {:induction false} JoinedOfTwo(a: seq<string>, b: seq<string>)
    requires a != [] && b != []
    ensures Joined(a + b) == Joined(a) + "," + Joined(b)
    decreases |b|
  {
    var init, last := b[..|b| - 1], b[|b| - 1];
    assert (a + b)[..|a + b| - 1] == a + init && (a + b)[|a + b| - 1] == last;
    if |b| == 1 {
      assert a + init == a;
    } else {
      JoinedOfTwo(a, init);
      assert Joined(a) + "," + Joined(init) + "," + last == Joined(a) + "," + (Joined(init) + "," + last);
    }
  }

  /** The serialised array. */
  function Array(rows: seq<string>): string {
    "[" + Joined(rows) + "]"
  }

  predicate Fits(rows: seq<string>, n: nat, maxSize: nat)
    requires n <= |rows|
  {
    |Array(rows[..n])| <= maxSize
  }

  /** The most rows that fit; none when not even one row does. */
  ghost predicate IsLongestFit(rows: seq<string>, maxSize: nat, n: nat) {
    && n <= |rows|
    && (n > 0 ==> Fits(rows, n, maxSize))
    && (forall m | n < m <= |rows| :: !Fits(rows, m, maxSize))
  }

  lemma ArrayOfOne(row: string)
    ensures Array([]) == "[]" && Array([row]) == "[" + row + "]"
  {
  }

  lemma LongestFitIsUnique(rows: seq<string>, maxSize: nat, a: nat, b: nat)
    requires IsLongestFit(rows, maxSize, a) && IsLongestFit(rows, maxSize, b)
    ensures a == b
  {
  }

  lemma {:induction false} ArrayGrows(rows: seq<string>, n: nat, m: nat)
    requires n <= m <= |rows|
    ensures |Array(rows[..n])| <= |Array(rows[..m])|
    ensures n < m && (forall i | 0 <= i < |rows| :: rows[i] != "") ==> |Array(rows[..n])| < |Array(rows[..m])|
    decreases m
  {
    if n < m {
      assert rows[..m][..m - 1] == rows[..m - 1];
      ArrayGrows(rows, n, m - 1);
    }
  }

  /** The array of the longest prefix that fits; flagged unless that is all of some rows. */
  ghost predicate IsTruncation(rows: seq<string>, maxSize: nat, json: string, truncated: bool) {
    exists n: nat :: IsLongestFit(rows, maxSize, n) && json == Array(rows[..n]) && (truncated <==> n < |rows| || rows == [])
  }

  /** Binary search for the longest prefix that fits. */
  method TruncateJsonResult(rows: seq<string>, maxSize: nat) returns (json: string, truncated: bool)
    ensures IsTruncation(rows, maxSize, json, truncated)
  {
    var low, high := 0, |rows|;
    while low < high
      invariant 0 <= low <= high <= |rows|
      invariant low > 0 ==> Fits(rows, low, maxSize)
      invariant forall m | high < m <= |rows| :: !Fits(rows, m, maxSize)
    {
      var mid := (low + high + 1) / 2;
      if |Array(rows[..mid])| <= maxSize {
        low := mid;
      } else {
        forall m | mid <= m <= |rows|
          ensures !Fits(rows, m, maxSize)
        {
          ArrayGrows(rows, mid, m);
        }
        high := mid - 1;
      }
    }
    assert IsLongestFit(rows, maxSize, low);
    if low == 0 {
      assert rows[..0] == [];
      return "[]", true;
    }
    return Array(rows[..low]), low < |rows|;
  }

  function Min(a: nat, b: nat): nat {
    if a < b then a else b
  }

  datatype JsonMode = JsonMode(rowCount: nat, json: string, truncated: bool)

  /** What the result of JSON mode is for the rows a query yields. */
  ghost predicate Answers(results: seq<string>, maxRows: nat, maxSize: nat, r: JsonMode) {
    var rows := results[..Min(|results|, maxRows)];
    && r.rowCount == |results|
    && (if |Array(rows)| <= maxSize then r.json == Array(rows) && !r.truncated
        else r.truncated && IsTruncation(rows, maxSize, r.json, true))
  }

  /** Rows beyond `maxRows` are counted and dropped; an array that is still too long is cut, and always flagged. */
  method ExecuteJsonMode(results: seq<string>, maxRows: nat, maxSize: nat) returns (r: JsonMode)
    ensures Answers(results, maxRows, maxSize, r)
  {
    var rows: seq<string>, total := [], 0;
    var i := 0;
    while i < |results|
      invariant 0 <= i <= |results| && total == i
      invariant rows == results[..Min(i, maxRows)]
    {
      total := total + 1;
      if |rows| < maxRows {
        rows := rows + [results[i]];
      }
      i := i + 1;
    }
    assert results[..i] == results;
    var json := Array(rows);
    if |json| <= maxSize {
      return JsonMode(total, json, false);
    }
    var cut, flag := TruncateJsonResult(rows, maxSize);
    assert rows[..|rows|] == rows;
    r := JsonMode(total, cut, flag);
  }

  /** The answer keeps the size limit exactly when the limit leaves room for an empty array. */
  lemma AnswerFits(results: seq<string>, maxRows: nat, maxSize: nat, r: JsonMode)
    requires Answers(results, maxRows, maxSize, r)
    ensures |r.json| <= maxSize <==> maxSize >= 2
  {
    var rows := results[..Min(|results|, maxRows)];
    if |Array(rows)| > maxSize {
      var n: nat :| IsLongestFit(rows, maxSize, n) && r.json == Array(rows[..n]);
      if n == 0 {
        assert rows[..n] == [];
      }
    }
  }

  /**
   An unflagged answer holds every row exactly when the row limit cut nothing, or the size
   limit flagged the answer anyway: rows beyond `maxRows` go without a flag.
   */
  lemma UnflaggedIsComplete(results: seq<string>, maxRows: nat, maxSize: nat, r: JsonMode)
    requires Answers(results, maxRows, maxSize, r)
    requires forall i | 0 <= i < |results| :: results[i] != ""
    ensures (!r.truncated ==> r.json == Array(results)) <==>
      |results| <= maxRows || |Array(results[..maxRows])| > maxSize
  {
    if |results| > maxRows {
      ArrayGrows(results, maxRows, |results|);
    }
    assert results[..|results|] == results;
  }

  /** The flag is set exactly when the rows kept do not fit, so never by the row limit alone. */
  lemma FlagMeansTooLong(results: seq<string>, maxRows: nat, maxSize: nat, r: JsonMode)
    requires Answers(results, maxRows, maxSize, r)
    ensures r.truncated <==> |Array(results[..Min(|results|, maxRows)])| > maxSize
  {
  }
}
