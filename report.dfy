/** The content `format_results` builds before handing it to `json.dumps` or `tabulate`: the
    groups sorted by descending count (Python's `sorted` is stable, also with `reverse=True`), and
    the CSV lines and table rows with their truncated domain lists. */
module Report {
  import opened Seqs
  import opened Aggregation
  import opened Text

  /** One entry of `self.results.items()`: a hash and its group. */
  type Item = (string, HashGroup)

  predicate SortedByCount(items: seq<Item>) {
    forall i, j :: 0 <= i < j < |items| ==> items[i].1.count >= items[j].1.count
  }

  /** The items whose count is `c`, in their order. */
  function WithCount(items: seq<Item>, c: int): seq<Item> {
    if |items| == 0 then []
    else WithCount(items[..|items| - 1], c) + (if items[|items| - 1].1.count == c then [items[|items| - 1]] else [])
  }

  lemma {:induction false} WithCountAppend(a: seq<Item>, b: seq<Item>, c: int)
    ensures WithCount(a + b, c) == WithCount(a, c) + WithCount(b, c)
  {
    if |b| > 0 {
      var b' := b[..|b| - 1];
      WithCountAppend(a, b', c);
      assert (a + b)[..|a + b| - 1] == a + b';
    } else {
      assert a + b == a;
    }
  }

  /** Place `x` after every item whose count is at least its own. */
  function Insert(sorted: seq<Item>, x: Item): seq<Item> {
    if |sorted| == 0 then [x]
    else
      var last := sorted[|sorted| - 1];
      if last.1.count >= x.1.count then sorted + [x]
      else Insert(sorted[..|sorted| - 1], x) + [last]
  }

  lemma {:induction false} InsertPermutes(sorted: seq<Item>, x: Item)
    ensures multiset(Insert(sorted, x)) == multiset(sorted) + multiset{x}
  {
    if |sorted| > 0 && sorted[|sorted| - 1].1.count < x.1.count {
      var init := sorted[..|sorted| - 1];
      InsertPermutes(init, x);
      assert sorted == init + [sorted[|sorted| - 1]];
    }
  }

  lemma {:induction false} InsertSorted(sorted: seq<Item>, x: Item)
    requires SortedByCount(sorted)
    ensures SortedByCount(Insert(sorted, x))
  {
    if |sorted| > 0 && sorted[|sorted| - 1].1.count < x.1.count {
      var init := sorted[..|sorted| - 1];
      var last := sorted[|sorted| - 1];
      InsertSorted(init, x);
      InsertPermutes(init, x);
      forall e | e in Insert(init, x) ensures e.1.count >= last.1.count {
        assert e in multiset(Insert(init, x));
        assert e in multiset(init) || e == x;
      }
    }
  }

  /** Inserting `x` leaves the order among items of every count unchanged and puts `x` after the
      items of its own count. */
  lemma {:induction false} InsertStable(sorted: seq<Item>, x: Item, c: int)
    ensures WithCount(Insert(sorted, x), c) == WithCount(sorted, c) + (if x.1.count == c then [x] else [])
  {
    if |sorted| == 0 {
      assert WithCount([x], c) == (if x.1.count == c then [x] else []) by { assert [x][..0] == []; }
    } else {
      var init := sorted[..|sorted| - 1];
      var last := sorted[|sorted| - 1];
      assert sorted == init + [last];
      var only := if last.1.count == c then [last] else [];
      assert WithCount([last], c) == only by { assert [last][..0] == []; }
      WithCountAppend(init, [last], c);
      if last.1.count >= x.1.count {
        WithCountAppend(sorted, [x], c);
        assert WithCount([x], c) == (if x.1.count == c then [x] else []) by { assert [x][..0] == []; }
      } else {
        InsertStable(init, x, c);
        WithCountAppend(Insert(init, x), [last], c);
      }
    }
  }

  /** `sorted(self.results.items(), key=count, reverse=True)`: the same items, by non-increasing
      count, and items of equal count in their original order. */
  function SortByCount(items: seq<Item>): (r: seq<Item>)
    ensures SortedByCount(r)
    ensures multiset(r) == multiset(items)
    ensures forall c :: WithCount(r, c) == WithCount(items, c)
  {
    if |items| == 0 then []
    else
      var init := items[..|items| - 1];
      var x := items[|items| - 1];
      var rest := SortByCount(init);
      assert items == init + [x];
      InsertSorted(rest, x);
      InsertPermutes(rest, x);
      assert forall c :: WithCount(Insert(rest, x), c) == WithCount(items, c) by {
        forall c ensures WithCount(Insert(rest, x), c) == WithCount(items, c) {
          InsertStable(rest, x, c);
          WithCountAppend(init, [x], c);
          assert WithCount([x], c) == (if x.1.count == c then [x] else []) by { assert [x][..0] == []; }
        }
      }
      Insert(rest, x)
  }

  /** `self.results.items()`: the groups in the insertion order of their hashes. */
  function ItemsOf(order: seq<string>, groups: map<string, HashGroup>): (items: seq<Item>)
    requires forall i :: 0 <= i < |order| ==> order[i] in groups
    ensures |items| == |order|
    ensures forall i :: 0 <= i < |order| ==> items[i] == (order[i], groups[order[i]])
  {
    if |order| == 0 then []
    else ItemsOf(order[..|order| - 1], groups) + [(order[|order| - 1], groups[order[|order| - 1]])]
  }

  /** How many domains a CSV row and a table row list before truncating. */
  const CSV_SHOWN: nat := 3
  const TABLE_SHOWN: nat := 2

  /** A domain list as a report cell shows it: the first `listed` domains and how many more. */
  datatype Summary = Summary(listed: seq<string>, hidden: nat)

  /** `data['domains'][:limit]` and, when the list is longer, `len - limit` more. */
  function Summarize(domains: seq<string>, limit: nat): (s: Summary)
    ensures |s.listed| == if |domains| < limit then |domains| else limit
    ensures s.listed == domains[..|s.listed|]
    ensures |s.listed| + s.hidden == |domains|
    ensures s.hidden > 0 <==> |domains| > limit
  {
    if |domains| > limit then Summary(domains[..limit], |domains| - limit)
    else Summary(domains, 0)
  }

  /** The cell text: the listed domains joined by ", " followed, when some are hidden, by
      ", +K more (check json)". */
  function RenderSummary(s: Summary): string {
    Join(", ", s.listed) + (if s.hidden > 0 then ", +" + NatToString(s.hidden) + " more (check json)" else "")
  }

  const CSV_HEADER: string := "Hash,Count,Domains"

  /** One CSV line: `"<hash>",<count>,"<domains>"`. */
  function CsvLine(item: Item): string {
    "\"" + item.0 + "\"," + IntToString(item.1.count) + ",\"" + RenderSummary(Summarize(item.1.domains, CSV_SHOWN)) + "\""
  }

  /** The `csv` output: the header and the item lines joined by newlines. */
  function CsvText(items: seq<Item>): string {
    Join("\n", [CSV_HEADER] + Map(items, CsvLine))
  }

  /** No character of a hash or a domain is a newline. */
  predicate SingleLine(item: Item) {
    && '\n' !in item.0
    && forall i :: 0 <= i < |item.1.domains| ==> '\n' !in item.1.domains[i]
  }

  lemma DigitsAvoidNewline(s: string)
    requires IsDigits(s)
    ensures '\n' !in s
  {
    forall i | 0 <= i < |s|
      ensures s[i] != '\n'
    {
      assert '0' <= s[i] <= '9';
    }
  }

  /** A cell built from newline-free domains has no newline. */
  lemma SummaryAvoidsNewline(domains: seq<string>, limit: nat)
    requires forall i :: 0 <= i < |domains| ==> '\n' !in domains[i]
    ensures '\n' !in RenderSummary(Summarize(domains, limit))
  {
    var s := Summarize(domains, limit);
    assert forall i :: 0 <= i < |s.listed| ==> s.listed[i] == domains[i];
    JoinAvoids(", ", s.listed, '\n');
    DigitsAvoidNewline(NatToString(s.hidden));
  }

  /** The CSV line of a newline-free item is a single line. */
  lemma CsvLineAvoidsNewline(item: Item)
    requires SingleLine(item)
    ensures '\n' !in CsvLine(item)
  {
    SummaryAvoidsNewline(item.1.domains, CSV_SHOWN);
    var n := item.1.count;
    DigitsAvoidNewline(NatToString(if n < 0 then -n else n));
  }

  lemma CsvLinesAvoidNewline(items: seq<Item>)
    requires forall i :: 0 <= i < |items| ==> SingleLine(items[i])
    ensures forall i :: 0 <= i < |items| ==> '\n' !in Map(items, CsvLine)[i]
  {
    forall i | 0 <= i < |items|
      ensures '\n' !in Map(items, CsvLine)[i]
    {
      CsvLineAvoidsNewline(items[i]);
    }
  }

  /** When no hash or domain holds a newline, the `csv` output read line by line is the header
      followed by exactly one line per item, in order. */
  lemma CsvTextLines(items: seq<Item>)
    requires forall i :: 0 <= i < |items| ==> SingleLine(items[i])
    ensures Split(CsvText(items), '\n') == [CSV_HEADER] + Map(items, CsvLine)
    ensures |Split(CsvText(items), '\n')| == |items| + 1
  {
    var body := Map(items, CsvLine);
    var lines := [CSV_HEADER] + body;
    CsvLinesAvoidNewline(items);
    assert '\n' !in CSV_HEADER;
    forall i | 0 <= i < |lines|
      ensures '\n' !in lines[i]
    {
      if i > 0 {
        assert lines[i] == body[i - 1];
      }
    }
    SplitJoin(lines, '\n');
  }

  /** One row handed to `tabulate`: hash, count and the domain cell. */
  datatype TableRow = TableRow(hash: string, count: int, domains: string)

  function TableRowOf(item: Item): TableRow {
    TableRow(item.0, item.1.count, RenderSummary(Summarize(item.1.domains, TABLE_SHOWN)))
  }

  /** A cell accounts for the whole group: the domains it lists plus the number it says are hidden
      is the group's count, and the cell lists every domain exactly when the count is within the
      limit. */
  lemma {:induction false} SummaryAccountsForGroup(t: Tally, h: string, limit: nat)
    requires Inv(t) && h in t.groups
    ensures var s := Summarize(t.groups[h].domains, limit);
            && |s.listed| + s.hidden == t.groups[h].count
            && (s.hidden == 0 <==> t.groups[h].count <= limit)
            && (forall d :: d in s.listed ==> (d, h) in t.seen)
  {
    var s := Summarize(t.groups[h].domains, limit);
    forall d | d in s.listed ensures (d, h) in t.seen {
      assert d in t.groups[h].domains;
    }
  }
}
