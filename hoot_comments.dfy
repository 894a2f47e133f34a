/**
 * `consolidate_comments_in_hoots` of db_helpers.py: the flat rows of a
 * hoots-join-comments query (one row per hoot and comment, with the comment's
 * columns null for a hoot without comments) are grouped into one dictionary
 * per hoot that carries a `comments` list.
 *
 * The rows are dictionaries updated in place, so each is a `Row` object whose
 * `fields` map the procedure reassigns.  `Expected` is the reference
 * definition of the outcome on a snapshot of the input, stated through the
 * indices at which each hoot id first appears; the procedure is proved to
 * produce it, and the lemmas state what the grouping promises.
 */
module HootComments {

  /** A column value as the database driver returns it; timestamps arrive as text here. */
  datatype Value =
    | Null
    | Bool(b: bool)
    | Int(i: int)
    | Text(s: string)
    | List(items: seq<Value>)
    | Dict(entries: map<string, Value>)

  type Fields = map<string, Value>

  /** A row dictionary, shared between the input list and the output list. */
  class Row {
    var fields: Fields

    constructor (fields: Fields)
      ensures this.fields == fields
    {
      this.fields := fields;
    }
  }

  /** The four comment columns that leave the hoot dictionary. */
  const CommentKeys: set<string> := {"comment_id", "comment_text", "comment_created_at", "comment_author_username"}

  /** A row as the query delivers it: it has an id and the four comment columns. */
  predicate WellFormed(f: Fields) {
    "id" in f && CommentKeys <= f.Keys
  }

  predicate AllWellFormed(snap: seq<Fields>) {
    forall i :: 0 <= i < |snap| ==> WellFormed(snap[i])
  }

  /** The comment dictionary built from a row's comment columns. */
  function CommentOf(f: Fields): Value
    requires CommentKeys <= f.Keys
  {
    Dict(map[
      "comment_text" := f["comment_text"],
      "comment_id" := f["comment_id"],
      "comment_created_at" := f["comment_created_at"],
      "comment_author_username" := f["comment_author_username"]])
  }

  /** Row `i` is the first row with its hoot id. */
  predicate IsFirst(snap: seq<Fields>, i: int)
    requires 0 <= i < |snap| && AllWellFormed(snap)
  {
    forall j :: 0 <= j < i ==> snap[j]["id"] != snap[i]["id"]
  }

  /** The indices, among the first `n` rows, at which a hoot id appears for the first time, in increasing order. */
  function Firsts(snap: seq<Fields>, n: nat): (r: seq<nat>)
    requires n <= |snap| && AllWellFormed(snap)
    ensures forall k :: 0 <= k < |r| ==> r[k] < n
    ensures forall k, l :: 0 <= k < l < |r| ==> r[k] < r[l]
  {
    if n == 0 then []
    else Firsts(snap, n - 1) + if IsFirst(snap, n - 1) then [n - 1] else []
  }

  /** Every index listed is a first row. */
  lemma {:induction false} FirstsAreFirst(snap: seq<Fields>, n: nat, k: nat)
    requires n <= |snap| && AllWellFormed(snap) && k < |Firsts(snap, n)|
    ensures IsFirst(snap, Firsts(snap, n)[k])
  {
    if k < |Firsts(snap, n - 1)| {
      FirstsAreFirst(snap, n - 1, k);
    }
  }

  /** Every first row among the first `n` is listed. */
  lemma {:induction false} FirstsComplete(snap: seq<Fields>, n: nat, j: nat)
    requires j < n <= |snap| && AllWellFormed(snap) && IsFirst(snap, j)
    ensures j in Firsts(snap, n)
  {
    if j < n - 1 {
      FirstsComplete(snap, n - 1, j);
    }
  }

  /** The first row's own comment: none when its comment_id is null (a hoot without comments). */
  function FirstComment(f: Fields): seq<Value>
    requires WellFormed(f)
  {
    if f["comment_id"] == Null then [] else [CommentOf(f)]
  }

  /** The comments of the rows `lo .. n-1` whose hoot id is `id`, in input order. */
  function LaterComments(snap: seq<Fields>, lo: nat, n: nat, id: Value): seq<Value>
    requires n <= |snap| && AllWellFormed(snap)
  {
    if n <= lo then []
    else LaterComments(snap, lo, n - 1, id) + if snap[n - 1]["id"] == id then [CommentOf(snap[n - 1])] else []
  }

  /**
   * The output dictionary for the first row `f` of its hoot once the first
   * `n` rows are processed: the comment columns gone, and a `comments` list
   * holding the first row's comment unless its comment_id is null, then the
   * comment of every later row with that id, in input order.
   */
  function Entry(snap: seq<Fields>, n: nat, f: nat): Fields
    requires f < n <= |snap| && AllWellFormed(snap)
  {
    (snap[f] - CommentKeys)["comments" := List(FirstComment(snap[f]) + LaterComments(snap, f + 1, n, snap[f]["id"]))]
  }

  /** The consolidated hoots once the first `n` rows are processed: one entry per first row, in input order. */
  function Partial(snap: seq<Fields>, n: nat): (r: seq<Fields>)
    requires n <= |snap| && AllWellFormed(snap)
    ensures |r| == |Firsts(snap, n)|
  {
    var firsts := Firsts(snap, n);
    seq(|firsts|, k requires 0 <= k < |firsts| => Entry(snap, n, firsts[k]))
  }

  /** What `consolidate_comments_in_hoots` returns for the input rows `snap`. */
  function Expected(snap: seq<Fields>): seq<Fields>
    requires AllWellFormed(snap)
  {
    Partial(snap, |snap|)
  }

  /** An entry with one more comment at the end of its list. */
  function Appended(f: Fields, comment: Value): Fields
    requires "comments" in f && f["comments"].List?
  {
    f["comments" := List(f["comments"].items + [comment])]
  }

  /** The dictionaries the row objects currently hold. */
  function Snap(rows: seq<Row>): (s: seq<Fields>)
    reads rows
    ensures |s| == |rows| && forall i :: 0 <= i < |rows| ==> s[i] == rows[i].fields
  {
    seq(|rows|, i reads rows requires 0 <= i < |rows| => rows[i].fields)
  }

  // ---------------------------------------------------------------------------
  // One step of the outer loop, on snapshots

  /** Some first row carries the id of every row. */
  lemma {:induction false} FirstExists(snap: seq<Fields>, j: nat)
    requires j < |snap| && AllWellFormed(snap)
    ensures exists f :: 0 <= f <= j && IsFirst(snap, f) && snap[f]["id"] == snap[j]["id"]
    decreases j
  {
    if !IsFirst(snap, j) {
      var e :| 0 <= e < j && snap[e]["id"] == snap[j]["id"];
      FirstExists(snap, e);
    }
  }

  /** A row whose id no earlier first row carries is itself a first row. */
  lemma NoMatchMeansFirst(snap: seq<Fields>, i: nat)
    requires i < |snap| && AllWellFormed(snap)
    requires forall k :: 0 <= k < |Firsts(snap, i)| ==> snap[Firsts(snap, i)[k]]["id"] != snap[i]["id"]
    ensures IsFirst(snap, i)
  {
    var firsts := Firsts(snap, i);
    forall j | 0 <= j < i ensures snap[j]["id"] != snap[i]["id"] {
      FirstExists(snap, j);
      var f :| 0 <= f <= j && IsFirst(snap, f) && snap[f]["id"] == snap[j]["id"];
      FirstsComplete(snap, i, f);
    }
  }

  /** Rows of other hoots leave an entry as it was. */
  lemma EntryOther(snap: seq<Fields>, i: nat, f: nat)
    requires f < i < |snap| && AllWellFormed(snap)
    requires snap[i]["id"] != snap[f]["id"]
    ensures Entry(snap, i + 1, f) == Entry(snap, i, f)
  {
    var later := LaterComments(snap, f + 1, i, snap[f]["id"]);
    assert LaterComments(snap, f + 1, i + 1, snap[f]["id"]) == later + [];
    assert later + [] == later;
  }

  /** A later row of the same hoot appends its comment to the entry. */
  lemma EntryAppend(snap: seq<Fields>, i: nat, f: nat)
    requires f < i < |snap| && AllWellFormed(snap)
    requires snap[i]["id"] == snap[f]["id"]
    ensures Entry(snap, i + 1, f) == Appended(Entry(snap, i, f), CommentOf(snap[i]))
  {
    var head := FirstComment(snap[f]);
    var later := LaterComments(snap, f + 1, i, snap[f]["id"]);
    assert LaterComments(snap, f + 1, i + 1, snap[f]["id"]) == later + [CommentOf(snap[i])];
    assert head + (later + [CommentOf(snap[i])]) == (head + later) + [CommentOf(snap[i])];
  }

  /** The entry a first row starts with holds only its own comment, if any. */
  lemma EntryNew(snap: seq<Fields>, i: nat)
    requires i < |snap| && AllWellFormed(snap)
    ensures Entry(snap, i + 1, i) == (snap[i] - CommentKeys)["comments" := List(FirstComment(snap[i]))]
  {
    assert FirstComment(snap[i]) + [] == FirstComment(snap[i]);
  }

  /** A row whose hoot is new adds its own entry at the end. */
  lemma PartialNew(snap: seq<Fields>, i: nat)
    requires i < |snap| && AllWellFormed(snap) && IsFirst(snap, i)
    ensures Firsts(snap, i + 1) == Firsts(snap, i) + [i]
    ensures Partial(snap, i + 1) == Partial(snap, i) + [Entry(snap, i + 1, i)]
  {
    var firsts := Firsts(snap, i);
    assert Firsts(snap, i + 1) == firsts + [i];
    forall k | 0 <= k < |firsts| ensures Entry(snap, i + 1, firsts[k]) == Entry(snap, i, firsts[k]) {
      EntryOther(snap, i, firsts[k]);
    }
  }

  /** A row whose hoot already has entry `j` appends its comment there and changes nothing else. */
  lemma PartialAppend(snap: seq<Fields>, i: nat, j: nat)
    requires i < |snap| && AllWellFormed(snap)
    requires j < |Firsts(snap, i)| && snap[Firsts(snap, i)[j]]["id"] == snap[i]["id"]
    ensures Firsts(snap, i + 1) == Firsts(snap, i) && !IsFirst(snap, i)
    ensures Partial(snap, i + 1) == Partial(snap, i)[j := Appended(Partial(snap, i)[j], CommentOf(snap[i]))]
  {
    var firsts := Firsts(snap, i);
    var f := firsts[j];
    assert !IsFirst(snap, i) by {
      assert f < i && snap[f]["id"] == snap[i]["id"];
    }
    assert Firsts(snap, i + 1) == firsts;
    var p0 := Partial(snap, i);
    var p1 := Partial(snap, i + 1);
    forall k | 0 <= k < |firsts| ensures p1[k] == p0[j := Appended(p0[j], CommentOf(snap[i]))][k] {
      if k == j {
        EntryAppend(snap, i, f);
      } else {
        assert snap[firsts[k]]["id"] != snap[f]["id"] by {
          if k < j { FirstsAreFirst(snap, i, j); } else { FirstsAreFirst(snap, i, k); }
        }
        EntryOther(snap, i, firsts[k]);
      }
    }
  }

  // ---------------------------------------------------------------------------
  // The procedure

  /** The new-hoot branch up to the append: the row gets its own comments list and loses the comment columns. */
  method StartHoot(hoot: Row)
    requires WellFormed(hoot.fields)
    modifies hoot
    ensures hoot.fields == (old(hoot.fields) - CommentKeys)["comments" := List(FirstComment(old(hoot.fields)))]
  {
    ghost var f0 := hoot.fields;
    GiveComments(hoot);
    DropCommentColumns(hoot);
    DropAfterSet(f0, List(FirstComment(f0)));
  }

  /** `hoot["comments"] = []` and the conditional append: a fresh comments list holding the row's own comment, if it has one. */
  method GiveComments(hoot: Row)
    requires WellFormed(hoot.fields)
    modifies hoot
    ensures hoot.fields == old(hoot.fields)["comments" := List(FirstComment(old(hoot.fields)))]
  {
    ghost var f0 := hoot.fields;
    hoot.fields := hoot.fields["comments" := List([])];
    if hoot.fields["comment_id"] != Null {
      assert CommentOf(hoot.fields) == CommentOf(f0);
      assert hoot.fields["comments"].items + [CommentOf(hoot.fields)] == [CommentOf(f0)];
      hoot.fields := hoot.fields["comments" := List(hoot.fields["comments"].items + [CommentOf(hoot.fields)])];
    }
  }

  /** The four `del` statements: the comment columns are deleted. */
  method DropCommentColumns(hoot: Row)
    requires CommentKeys <= hoot.fields.Keys
    modifies hoot
    ensures hoot.fields == old(hoot.fields) - CommentKeys
  {
    hoot.fields := hoot.fields - {"comment_id"};
    hoot.fields := hoot.fields - {"comment_text"};
    hoot.fields := hoot.fields - {"comment_author_username"};
    hoot.fields := hoot.fields - {"comment_created_at"};
  }

  /** Setting `comments` and dropping the comment columns commute. */
  lemma DropAfterSet(f: Fields, v: Value)
    ensures f["comments" := v] - CommentKeys == (f - CommentKeys)["comments" := v]
  {
    assert "comments" !in CommentKeys;
  }

  /** The `if not hoot_exists` branch: the row starts its own entry, which is appended to the output. */
  method AddNewHoot(consolidated: seq<Row>, hoot: Row, ghost entries: seq<Fields>) returns (next: seq<Row>)
    requires WellFormed(hoot.fields) && hoot !in consolidated && Snap(consolidated) == entries
    modifies hoot
    ensures next == consolidated + [hoot]
    ensures Snap(next) == entries + [(old(hoot.fields) - CommentKeys)["comments" := List(FirstComment(old(hoot.fields)))]]
  {
    StartHoot(hoot);
    assert Snap(consolidated) == entries;
    next := consolidated + [hoot];
    assert Snap(next) == Snap(consolidated) + [hoot.fields];
  }

  /**
   * The inner `for consolidated_hoot in consolidated_hoots` loop: the first
   * entry with the row's id, if any, gets the row's comment appended and the
   * search stops there.
   */
  method FindAndAppend(consolidated: seq<Row>, hoot: Row, ghost entries: seq<Fields>) returns (hootExists: bool, j: nat)
    requires forall a, b :: 0 <= a < b < |consolidated| ==> consolidated[a] != consolidated[b]
    requires Snap(consolidated) == entries
    requires forall k :: 0 <= k < |entries| ==> "id" in entries[k] && "comments" in entries[k] && entries[k]["comments"].List?
    requires WellFormed(hoot.fields) && hoot !in consolidated
    modifies consolidated
    ensures hootExists ==> j < |entries| && entries[j]["id"] == hoot.fields["id"]
    ensures forall k :: 0 <= k < |entries| && !(hootExists && k >= j) ==> entries[k]["id"] != hoot.fields["id"]
    ensures Snap(consolidated) == if hootExists then entries[j := Appended(entries[j], CommentOf(hoot.fields))] else entries
  {
    hootExists := false;
    j := 0;
    while j < |consolidated|
      invariant 0 <= j <= |consolidated|
      invariant forall k :: 0 <= k < j ==> entries[k]["id"] != hoot.fields["id"]
      invariant Snap(consolidated) == entries
    {
      var consolidatedHoot := consolidated[j];
      if hoot.fields["id"] == consolidatedHoot.fields["id"] {
        hootExists := true;
        consolidatedHoot.fields := consolidatedHoot.fields["comments" :=
          List(consolidatedHoot.fields["comments"].items + [CommentOf(hoot.fields)])];
        break;
      }
      j := j + 1;
    }
  }

  /**
   * With distinct row objects, the output rows are exactly the first rows seen
   * so far: distinct, and no other row among them.
   */
  lemma Listed(rows: seq<Row>, consolidated: seq<Row>, snap: seq<Fields>, i: nat)
    requires i <= |rows| == |snap| && AllWellFormed(snap)
    requires forall a, b :: 0 <= a < b < |rows| ==> rows[a] != rows[b]
    requires |consolidated| == |Firsts(snap, i)|
    requires forall k :: 0 <= k < |consolidated| ==> consolidated[k] == rows[Firsts(snap, i)[k]]
    ensures forall a, b :: 0 <= a < b < |consolidated| ==> consolidated[a] != consolidated[b]
    ensures forall j :: i <= j < |rows| ==> rows[j] !in consolidated
  {
    var firsts := Firsts(snap, i);
    forall a, b | 0 <= a < b < |consolidated| ensures consolidated[a] != consolidated[b] {
      assert firsts[a] < firsts[b];
    }
    forall j | i <= j < |rows| ensures rows[j] !in consolidated {
      forall k | 0 <= k < |consolidated| ensures consolidated[k] != rows[j] {
        assert firsts[k] != j;
      }
    }
  }

  /** No row other than a first row is among the output rows. */
  lemma Unlisted(rows: seq<Row>, consolidated: seq<Row>, snap: seq<Fields>)
    requires |rows| == |snap| && AllWellFormed(snap)
    requires forall a, b :: 0 <= a < b < |rows| ==> rows[a] != rows[b]
    requires |consolidated| == |Firsts(snap, |snap|)|
    requires forall k :: 0 <= k < |consolidated| ==> consolidated[k] == rows[Firsts(snap, |snap|)[k]]
    ensures forall j :: 0 <= j < |rows| && !IsFirst(snap, j) ==> rows[j] !in consolidated
  {
    var firsts := Firsts(snap, |snap|);
    forall j | 0 <= j < |rows| && !IsFirst(snap, j) ensures rows[j] !in consolidated {
      forall k | 0 <= k < |consolidated| ensures consolidated[k] != rows[j] {
        FirstsAreFirst(snap, |snap|, k);
        assert firsts[k] != j;
      }
    }
  }

  /** Each entry keeps its first row's id and has a comments list. */
  lemma PartialIds(snap: seq<Fields>, n: nat)
    requires n <= |snap| && AllWellFormed(snap)
    ensures var p := Partial(snap, n);
      forall k :: 0 <= k < |p| ==>
        && "id" in p[k] && p[k]["id"] == snap[Firsts(snap, n)[k]]["id"]
        && "comments" in p[k] && p[k]["comments"].List?
  {
    assert "id" !in CommentKeys;
  }

  /** One iteration of the outer loop, for row `i`: the inner search, then the `if not hoot_exists` branch. */
  method AddRow(rows: seq<Row>, consolidated: seq<Row>, i: nat, ghost snap: seq<Fields>)
    returns (next: seq<Row>)
    requires i < |rows| == |snap| && AllWellFormed(snap)
    requires forall a, b :: 0 <= a < b < |rows| ==> rows[a] != rows[b]
    requires |consolidated| == |Firsts(snap, i)|
    requires forall k :: 0 <= k < |consolidated| ==> consolidated[k] == rows[Firsts(snap, i)[k]]
    requires Snap(consolidated) == Partial(snap, i)
    requires forall j :: 0 <= j < |rows| && rows[j] !in consolidated ==> rows[j].fields == snap[j]
    modifies rows
    ensures |next| == |Firsts(snap, i + 1)|
    ensures forall k :: 0 <= k < |next| ==> next[k] == rows[Firsts(snap, i + 1)[k]]
    ensures Snap(next) == Partial(snap, i + 1)
    ensures forall j :: 0 <= j < |rows| && rows[j] !in next ==> rows[j].fields == snap[j]
  {
    ghost var firsts := Firsts(snap, i);
    ghost var entries := Partial(snap, i);
    var hoot := rows[i];
    Listed(rows, consolidated, snap, i);
    PartialIds(snap, i);
    var hootExists, j := FindAndAppend(consolidated, hoot, entries);
    next := Settle(rows, consolidated, i, snap, hootExists, j);
  }

  /** After the inner search for row `i`: the `if not hoot_exists` branch, or nothing more to do. */
  method Settle(rows: seq<Row>, consolidated: seq<Row>, i: nat, ghost snap: seq<Fields>, hootExists: bool, j: nat)
    returns (next: seq<Row>)
    requires i < |rows| == |snap| && AllWellFormed(snap)
    requires |consolidated| == |Firsts(snap, i)|
    requires forall k :: 0 <= k < |consolidated| ==> consolidated[k] == rows[Firsts(snap, i)[k]]
    requires rows[i] !in consolidated
    requires hootExists ==> j < |Firsts(snap, i)| && snap[Firsts(snap, i)[j]]["id"] == snap[i]["id"]
    requires !hootExists ==> forall k :: 0 <= k < |Firsts(snap, i)| ==> snap[Firsts(snap, i)[k]]["id"] != snap[i]["id"]
    requires Snap(consolidated) == if hootExists then Partial(snap, i)[j := Appended(Partial(snap, i)[j], CommentOf(snap[i]))] else Partial(snap, i)
    requires forall j :: 0 <= j < |rows| && rows[j] !in consolidated ==> rows[j].fields == snap[j]
    modifies rows[i]
    ensures |next| == |Firsts(snap, i + 1)|
    ensures forall k :: 0 <= k < |next| ==> next[k] == rows[Firsts(snap, i + 1)[k]]
    ensures Snap(next) == Partial(snap, i + 1)
    ensures forall j :: 0 <= j < |rows| && rows[j] !in next ==> rows[j].fields == snap[j]
  {
    if !hootExists {
      NoMatchMeansFirst(snap, i);
      next := AddFirstRow(rows, consolidated, i, snap);
    } else {
      PartialAppend(snap, i, j);
      next := consolidated;
    }
  }

  /** The `if not hoot_exists` branch for row `i`, the first of its hoot. */
  method AddFirstRow(rows: seq<Row>, consolidated: seq<Row>, i: nat, ghost snap: seq<Fields>)
    returns (next: seq<Row>)
    requires i < |rows| == |snap| && AllWellFormed(snap) && IsFirst(snap, i)
    requires |consolidated| == |Firsts(snap, i)|
    requires forall k :: 0 <= k < |consolidated| ==> consolidated[k] == rows[Firsts(snap, i)[k]]
    requires rows[i] !in consolidated
    requires Snap(consolidated) == Partial(snap, i)
    requires forall j :: 0 <= j < |rows| && rows[j] !in consolidated ==> rows[j].fields == snap[j]
    modifies rows[i]
    ensures |next| == |Firsts(snap, i + 1)|
    ensures forall k :: 0 <= k < |next| ==> next[k] == rows[Firsts(snap, i + 1)[k]]
    ensures Snap(next) == Partial(snap, i + 1)
    ensures forall j :: 0 <= j < |rows| && rows[j] !in next ==> rows[j].fields == snap[j]
  {
    PartialNew(snap, i);
    EntryNew(snap, i);
    next := AddNewHoot(consolidated, rows[i], Partial(snap, i));
  }

  /** `consolidate_comments_in_hoots(hoots_with_comments)`. */
  method ConsolidateCommentsInHoots(hootsWithComments: seq<Row>) returns (consolidatedHoots: seq<Row>)
    requires forall a, b :: 0 <= a < b < |hootsWithComments| ==> hootsWithComments[a] != hootsWithComments[b]
    requires forall i :: 0 <= i < |hootsWithComments| ==> WellFormed(hootsWithComments[i].fields)
    modifies hootsWithComments
    ensures var snap := old(Snap(hootsWithComments));
      var firsts := Firsts(snap, |snap|);
      && |consolidatedHoots| == |firsts|
      && (forall k :: 0 <= k < |firsts| ==> consolidatedHoots[k] == hootsWithComments[firsts[k]])
      && Snap(consolidatedHoots) == Expected(snap)
      && forall i :: 0 <= i < |snap| && !IsFirst(snap, i) ==> hootsWithComments[i].fields == snap[i]
  {
    ghost var snap := Snap(hootsWithComments);
    consolidatedHoots := GroupRows(hootsWithComments, snap);
    Unlisted(hootsWithComments, consolidatedHoots, snap);
  }

  /** The outer `for hoot in hoots_with_comments` loop over rows whose dictionaries are `snap`. */
  method GroupRows(rows: seq<Row>, ghost snap: seq<Fields>) returns (consolidated: seq<Row>)
    requires Snap(rows) == snap && AllWellFormed(snap)
    requires forall a, b :: 0 <= a < b < |rows| ==> rows[a] != rows[b]
    modifies rows
    ensures |consolidated| == |Firsts(snap, |snap|)|
    ensures forall k :: 0 <= k < |consolidated| ==> consolidated[k] == rows[Firsts(snap, |snap|)[k]]
    ensures Snap(consolidated) == Partial(snap, |snap|)
    ensures forall j :: 0 <= j < |rows| && rows[j] !in consolidated ==> rows[j].fields == snap[j]
  {
    consolidated := [];
    for i := 0 to |rows|
      invariant |consolidated| == |Firsts(snap, i)|
      invariant forall k :: 0 <= k < |consolidated| ==> consolidated[k] == rows[Firsts(snap, i)[k]]
      invariant Snap(consolidated) == Partial(snap, i)
      invariant forall j :: 0 <= j < |rows| && rows[j] !in consolidated ==> rows[j].fields == snap[j]
    {
      consolidated := AddRow(rows, consolidated, i, snap);
    }
  }

  // ---------------------------------------------------------------------------
  // What the grouping promises, stated on the reference definition

  /** The hoot ids of the input rows. */
  function Ids(snap: seq<Fields>): set<Value>
    requires AllWellFormed(snap)
  {
    set j | 0 <= j < |snap| :: snap[j]["id"]
  }

  /** No two output dictionaries share a hoot id. */
  lemma ExpectedIdsDistinct(snap: seq<Fields>)
    requires AllWellFormed(snap)
    ensures var e := Expected(snap);
      (forall k :: 0 <= k < |e| ==> "id" in e[k])
      && forall a, b :: 0 <= a < b < |e| ==> e[a]["id"] != e[b]["id"]
  {
    var n := |snap|;
    var firsts := Firsts(snap, n);
    PartialIds(snap, n);
    forall a, b | 0 <= a < b < |firsts| ensures snap[firsts[a]]["id"] != snap[firsts[b]]["id"] {
      FirstsAreFirst(snap, n, b);
    }
  }

  /** Every input hoot id has an output dictionary, and every output id comes from the input. */
  lemma ExpectedIdsCover(snap: seq<Fields>)
    requires AllWellFormed(snap)
    ensures var e := Expected(snap);
      (forall k :: 0 <= k < |e| ==> "id" in e[k] && e[k]["id"] in Ids(snap))
      && forall j :: 0 <= j < |snap| ==> exists k :: 0 <= k < |e| && "id" in e[k] && e[k]["id"] == snap[j]["id"]
  {
    var n := |snap|;
    var firsts := Firsts(snap, n);
    var e := Expected(snap);
    PartialIds(snap, n);
    forall j | 0 <= j < n ensures exists k :: 0 <= k < |e| && "id" in e[k] && e[k]["id"] == snap[j]["id"] {
      FirstExists(snap, j);
      var f :| 0 <= f <= j && IsFirst(snap, f) && snap[f]["id"] == snap[j]["id"];
      FirstsComplete(snap, n, f);
      var k :| 0 <= k < |firsts| && firsts[k] == f;
      assert e[k]["id"] == snap[j]["id"];
    }
  }

  /** A sequence without repetitions has as many distinct elements as it has elements. */
  lemma {:induction false} DistinctCard<T>(s: seq<T>)
    requires forall a, b :: 0 <= a < b < |s| ==> s[a] != s[b]
    ensures |set k | 0 <= k < |s| :: s[k]| == |s|
  {
    if s != [] {
      var init := s[..|s| - 1];
      DistinctCard(init);
      var elems := set k | 0 <= k < |s| :: s[k];
      var initElems := set k | 0 <= k < |init| :: init[k];
      assert elems == initElems + {s[|s| - 1]} by {
        forall x | x in elems ensures x in initElems + {s[|s| - 1]} {
          var k :| 0 <= k < |s| && s[k] == x;
          if k < |s| - 1 { assert init[k] == x; }
        }
      }
      assert s[|s| - 1] !in initElems;
    }
  }

  /** There are as many output dictionaries as distinct hoot ids in the input. */
  lemma ExpectedCount(snap: seq<Fields>)
    requires AllWellFormed(snap)
    ensures |Expected(snap)| == |Ids(snap)|
  {
    var e := Expected(snap);
    ExpectedIdsDistinct(snap);
    PartialIds(snap, |snap|);
    var ids := seq(|e|, k requires 0 <= k < |e| => e[k]["id"]);
    DistinctCard(ids);
    IdsListed(snap, ids);
  }

  /** The ids of the first rows, as a set, are all the input's ids. */
  lemma IdsListed(snap: seq<Fields>, ids: seq<Value>)
    requires AllWellFormed(snap)
    requires |ids| == |Firsts(snap, |snap|)|
    requires forall k :: 0 <= k < |ids| ==> ids[k] == snap[Firsts(snap, |snap|)[k]]["id"]
    ensures (set k | 0 <= k < |ids| :: ids[k]) == Ids(snap)
  {
    var n := |snap|;
    var firsts := Firsts(snap, n);
    var idSet := set k | 0 <= k < |ids| :: ids[k];
    forall x | x in Ids(snap) ensures x in idSet {
      var j :| 0 <= j < n && snap[j]["id"] == x;
      FirstExists(snap, j);
      var f :| 0 <= f <= j && IsFirst(snap, f) && snap[f]["id"] == snap[j]["id"];
      FirstsComplete(snap, n, f);
      var k :| 0 <= k < |firsts| && firsts[k] == f;
      assert ids[k] == x;
    }
    forall x | x in idSet ensures x in Ids(snap) {
      var k :| 0 <= k < |ids| && ids[k] == x;
      assert snap[firsts[k]]["id"] in Ids(snap);
    }
  }

  /**
   * The output dictionaries come in the order in which their hoots first
   * appear: whenever `a < b`, some row of hoot `a` precedes every row of hoot `b`.
   */
  lemma ExpectedOrder(snap: seq<Fields>, a: nat, b: nat, j: nat)
    requires AllWellFormed(snap)
    requires a < b < |Expected(snap)| && j < |snap|
    requires "id" in Expected(snap)[b] && snap[j]["id"] == Expected(snap)[b]["id"]
    ensures "id" in Expected(snap)[a]
    ensures exists i :: 0 <= i < j && snap[i]["id"] == Expected(snap)[a]["id"]
  {
    var n := |snap|;
    var firsts := Firsts(snap, n);
    PartialIds(snap, n);
    FirstsAreFirst(snap, n, b);
    assert firsts[a] < firsts[b] <= j;
    assert snap[firsts[a]]["id"] == Expected(snap)[a]["id"];
  }

  /**
   * Each output dictionary is its hoot's first row without the four comment
   * columns and with a `comments` key; every other column keeps its value.
   */
  lemma ExpectedShape(snap: seq<Fields>, k: nat)
    requires AllWellFormed(snap) && k < |Expected(snap)|
    ensures var f := Firsts(snap, |snap|)[k];
      var e := Expected(snap)[k];
      && e.Keys == snap[f].Keys - CommentKeys + {"comments"}
      && (forall key :: key in snap[f] && key !in CommentKeys && key != "comments" ==> e[key] == snap[f][key])
      && e["comments"].List?
  {
  }

  /** The comments of rows `lo .. n-1` split at any `m` in between. */
  lemma {:induction false} LaterCommentsSplit(snap: seq<Fields>, lo: nat, m: nat, n: nat, id: Value)
    requires lo <= m <= n <= |snap| && AllWellFormed(snap)
    ensures LaterComments(snap, lo, n, id) == LaterComments(snap, lo, m, id) + LaterComments(snap, m, n, id)
    decreases n
  {
    if m < n {
      LaterCommentsSplit(snap, lo, m, n - 1, id);
      var a := LaterComments(snap, lo, m, id);
      var b := LaterComments(snap, m, n - 1, id);
      var x := if snap[n - 1]["id"] == id then [CommentOf(snap[n - 1])] else [];
      assert (a + b) + x == a + (b + x);
    } else {
      assert LaterComments(snap, m, n, id) == [];
      assert LaterComments(snap, lo, m, id) + [] == LaterComments(snap, lo, m, id);
    }
  }

  /**
   * The comments of a hoot are the comments built from all its rows, in input
   * order, except that a null comment on its first row (a hoot without
   * comments) is dropped.
   */
  lemma ExpectedComments(snap: seq<Fields>, k: nat)
    requires AllWellFormed(snap) && k < |Expected(snap)|
    ensures var f := Firsts(snap, |snap|)[k];
      var all := LaterComments(snap, 0, |snap|, snap[f]["id"]);
      && |all| > 0 && all[0] == CommentOf(snap[f])
      && Expected(snap)[k]["comments"] == List(if snap[f]["comment_id"] == Null then all[1..] else all)
  {
    var n := |snap|;
    var f := Firsts(snap, n)[k];
    FirstsAreFirst(snap, n, k);
    CommentsFromFirst(snap, f, n);
    var all := LaterComments(snap, 0, n, snap[f]["id"]);
    var later := LaterComments(snap, f + 1, n, snap[f]["id"]);
    assert all[1..] == later;
    assert Expected(snap)[k]["comments"] == List(FirstComment(snap[f]) + later);
  }

  /** All comments of a hoot: its first row's, then those of the later rows. */
  lemma CommentsFromFirst(snap: seq<Fields>, f: nat, n: nat)
    requires f < n <= |snap| && AllWellFormed(snap) && IsFirst(snap, f)
    ensures LaterComments(snap, 0, n, snap[f]["id"]) == [CommentOf(snap[f])] + LaterComments(snap, f + 1, n, snap[f]["id"])
  {
    var id := snap[f]["id"];
    NoEarlierComments(snap, f, f);
    LaterCommentsSplit(snap, 0, f, n, id);
    LaterCommentsSplit(snap, f, f + 1, n, id);
    assert LaterComments(snap, f, f + 1, id) == [CommentOf(snap[f])] by {
      assert LaterComments(snap, f, f, id) == [];
    }
  }

  /** No row before a first row carries its id, so none contributes a comment to it. */
  lemma {:induction false} NoEarlierComments(snap: seq<Fields>, f: nat, m: nat)
    requires m <= f < |snap| && AllWellFormed(snap) && IsFirst(snap, f)
    ensures LaterComments(snap, 0, m, snap[f]["id"]) == []
  {
    if m > 0 {
      NoEarlierComments(snap, f, m - 1);
    }
  }
}
