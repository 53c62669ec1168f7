/**
 * The file-set resolver (`ExtractParseForms.file_sort_year_wise` and
 * `prepare_list_of_files`).
 *
 * Downloaded filings are stored as `<root>/<ticker>/<form>/<name>.txt`, and
 * the names follow `<filer>-<yy>-<sequence>.txt`. The resolver lists the
 * form directory, keeps the names that end in `txt`, and sorts them stably
 * by the two-digit year in the name. Each name is then turned into a path
 * under the form directory.
 */
module Resolver {
  import opened Results
  import opened PyText
  import opened Storage

  /*
   * The sort key: `re.sub(r'(\d+\-)(\d+)(\-\d+)(\.txt)', r'\2', name)`,
   * then `int` of what is left.
   */

  /** The file-name pattern matches `s[i..c + 4]` with its three digit
      groups `s[i..a]`, `s[a + 1..b]` and `s[b + 1..c]`. */
  ghost predicate NameMatch(s: string, i: nat, a: nat, b: nat, c: nat) {
    && i < a && a + 1 < b && b + 1 < c && c + 4 <= |s|
    && AllIn(s, i, a, Digit) && s[a] == '-'
    && AllIn(s, a + 1, b, Digit) && s[b] == '-'
    && AllIn(s, b + 1, c, Digit) && s[c..c + 4] == ".txt"
  }

  /** The match of the file-name pattern at `i`: where it ends and its
      second group. Each digit run is followed by a non-digit, so every
      group is a maximal run. */
  function MatchAt(s: string, i: nat): Option<(nat, string)>
    requires i <= |s|
  {
    var a := RunEnd(s, i, Digit);
    if a == i || a == |s| || s[a] != '-' then None
    else
      var b := RunEnd(s, a + 1, Digit);
      if b == a + 1 || b == |s| || s[b] != '-' then None
      else
        var c := RunEnd(s, b + 1, Digit);
        if c == b + 1 || c + 4 > |s| || s[c..c + 4] != ".txt" then None
        else Some((c + 4, s[a + 1..b]))
  }

  /** `re.sub` of the pattern by its second group, from position `i`: each
      leftmost match is replaced and the scan resumes after it. */
  function Substitute(s: string, i: nat): string
    requires i <= |s|
    decreases |s| - i
  {
    if i == |s| then []
    else
      match MatchAt(s, i)
      case Some((e, g)) => g + Substitute(s, e)
      case None => [s[i]] + Substitute(s, i + 1)
  }

  /** `file_sort_year_wise`: the ValueError of `int` becomes `UnsortableName`,
      carrying the substituted text that `int` rejected. */
  function SortKey(name: string): (r: Result<int>)
    ensures r.Ok? <==> ParseInt(Substitute(name, 0)).Some?
    ensures r.Err? ==> r.error == UnsortableName(Substitute(name, 0))
  {
    match ParseInt(Substitute(name, 0))
    case Some(k) => Ok(k)
    case None => Err(UnsortableName(Substitute(name, 0)))
  }

  /** The pattern matches at `i` exactly when the declarative description
      does, and the scanner reports the end of the match and group 2. */
  lemma MatchAtComplete(s: string, i: nat, a: nat, b: nat, c: nat)
    requires NameMatch(s, i, a, b, c)
    ensures MatchAt(s, i) == Some((c + 4, s[a + 1..b]))
  {
    RunEndUnique(s, i, a, Digit);
    RunEndUnique(s, a + 1, b, Digit);
    assert s[c] == s[c..c + 4][0];
    RunEndUnique(s, b + 1, c, Digit);
  }

  lemma MatchAtSound(s: string, i: nat)
    requires i <= |s| && MatchAt(s, i).Some?
    ensures exists a: nat, b: nat, c: nat ::
      NameMatch(s, i, a, b, c) && MatchAt(s, i) == Some((c + 4, s[a + 1..b]))
  {
    var a := RunEnd(s, i, Digit);
    var b := RunEnd(s, a + 1, Digit);
    var c := RunEnd(s, b + 1, Digit);
    assert NameMatch(s, i, a, b, c);
  }

  /** A name without `-` is left as it is. */
  lemma {:induction false} SubstituteWithoutDash(s: string, i: nat)
    requires i <= |s|
    requires forall n | 0 <= n < |s| :: s[n] != '-'
    ensures Substitute(s, i) == s[i..]
    decreases |s| - i
  {
    if i < |s| {
      SubstituteWithoutDash(s, i + 1);
      assert s[i..] == [s[i]] + s[i + 1..];
    }
  }

  /** A name that follows the convention `D1-D2-D3.txt` is keyed by the
      integer value of its middle digit group. */
  lemma ConventionKey(d1: string, d2: string, d3: string)
    requires |d1| > 0 && AllDigits(d1)
    requires |d2| > 0 && AllDigits(d2)
    requires |d3| > 0 && AllDigits(d3)
    ensures SortKey(d1 + "-" + d2 + "-" + d3 + ".txt") == Ok(DigitsValue(d2))
  {
    ConventionSubstitute(d1, d2, d3);
    ParseIntOfDigits(d2);
  }

  /** The substitution reduces a conventional name to its middle group. */
  lemma ConventionSubstitute(d1: string, d2: string, d3: string)
    requires |d1| > 0 && AllDigits(d1)
    requires |d2| > 0 && AllDigits(d2)
    requires |d3| > 0 && AllDigits(d3)
    ensures Substitute(d1 + "-" + d2 + "-" + d3 + ".txt", 0) == d2
  {
    var s := d1 + "-" + d2 + "-" + d3 + ".txt";
    var a := |d1|;
    var b := a + 1 + |d2|;
    var c := b + 1 + |d3|;
    assert forall n | 0 <= n < a :: s[n] == d1[n];
    assert forall n | a + 1 <= n < b :: s[n] == d2[n - a - 1];
    assert forall n | b + 1 <= n < c :: s[n] == d3[n - b - 1];
    assert s[a] == '-' && s[b] == '-';
    assert s[c..c + 4] == ".txt";
    assert s[a + 1..b] == d2;
    assert NameMatch(s, 0, a, b, c);
    MatchAtComplete(s, 0, a, b, c);
    assert c + 4 == |s|;
  }

  /** The example name `0000320193-18-000145.txt` is keyed 18. */
  lemma ExampleKey()
    ensures SortKey("0000320193-18-000145.txt") == Ok(18)
  {
    assert "0000320193-18-000145.txt" == "0000320193" + "-" + "18" + "-" + "000145" + ".txt";
    ConventionKey("0000320193", "18", "000145");
  }

  /** A name that starts with a letter and has no `-`, such as
      `test1.txt`, is left as it is by the substitution and has no key. */
  lemma NameWithoutDash(s: string)
    requires |s| > 0 && IsLetter(s[0])
    requires forall n | 0 <= n < |s| :: s[n] != '-'
    ensures SortKey(s) == Err(UnsortableName(s))
  {
    SubstituteWithoutDash(s, 0);
    assert s[0..] == s;
    ParseIntOfLetterFirst(s);
  }

  /** `test1.txt` has no key. */
  lemma NonConventionalName()
    ensures SortKey("test1.txt") == Err(UnsortableName("test1.txt"))
  {
    NameWithoutDash("test1.txt");
  }

  /*
   * The stable sort: `list.sort(key=file_sort_year_wise)`. The keys are
   * computed once per name, in list order, before any comparison.
   */

  /** A name with its sort key. */
  datatype Entry = Entry(name: string, key: int)

  /** Keys never decrease along the sequence. */
  predicate Sorted(es: seq<Entry>) {
    forall i, j | 0 <= i < j < |es| :: es[i].key <= es[j].key
  }

  /** The entries whose key is `k`, in their order in `es`. */
  function WithKey(es: seq<Entry>, k: int): seq<Entry>
    decreases |es|
  {
    if |es| == 0 then []
    else WithKey(es[..|es| - 1], k) + (if es[|es| - 1].key == k then [es[|es| - 1]] else [])
  }

  /** `ordered` is what a stable sort by key makes of `es`: sorted, and the
      entries of each key in their original order. */
  ghost predicate StableOrderOf(ordered: seq<Entry>, es: seq<Entry>) {
    Sorted(ordered) && forall k: int :: WithKey(ordered, k) == WithKey(es, k)
  }

  function NamesOf(es: seq<Entry>): (r: seq<string>)
    ensures |r| == |es|
    ensures forall i | 0 <= i < |es| :: r[i] == es[i].name
  {
    seq(|es|, i requires 0 <= i < |es| => es[i].name)
  }

  /** Insert `x` after every element whose key is not greater than its own. */
  function Insert(sorted: seq<Entry>, x: Entry): seq<Entry>
    decreases |sorted|
  {
    if |sorted| == 0 || sorted[|sorted| - 1].key <= x.key then sorted + [x]
    else Insert(sorted[..|sorted| - 1], x) + [sorted[|sorted| - 1]]
  }

  /** Insertion sort by key; equal keys keep their order. */
  function SortEntries(es: seq<Entry>): seq<Entry>
    decreases |es|
  {
    if |es| == 0 then []
    else Insert(SortEntries(es[..|es| - 1]), es[|es| - 1])
  }

  /** Inserting adds `x` and nothing else, and so adds its name. */
  lemma {:induction false} InsertPermutes(sorted: seq<Entry>, x: Entry)
    ensures multiset(Insert(sorted, x)) == multiset(sorted) + multiset{x}
    ensures multiset(NamesOf(Insert(sorted, x))) == multiset(NamesOf(sorted)) + multiset{x.name}
    decreases |sorted|
  {
    if |sorted| == 0 || sorted[|sorted| - 1].key <= x.key {
      assert NamesOf(sorted + [x]) == NamesOf(sorted) + [x.name];
    } else {
      var init := sorted[..|sorted| - 1];
      var y := sorted[|sorted| - 1];
      assert sorted == init + [y];
      assert NamesOf(sorted) == NamesOf(init) + [y.name];
      InsertPermutes(init, x);
      var r := Insert(init, x);
      assert Insert(sorted, x) == r + [y];
      assert NamesOf(r + [y]) == NamesOf(r) + [y.name];
    }
  }

  /** The sort is a permutation of the entries and of their names. */
  lemma {:induction false} SortEntriesPermutes(es: seq<Entry>)
    ensures multiset(SortEntries(es)) == multiset(es)
    ensures multiset(NamesOf(SortEntries(es))) == multiset(NamesOf(es))
    decreases |es|
  {
    if |es| > 0 {
      var init := es[..|es| - 1];
      var x := es[|es| - 1];
      assert es == init + [x];
      assert NamesOf(es) == NamesOf(init) + [x.name];
      SortEntriesPermutes(init);
      InsertPermutes(SortEntries(init), x);
    }
  }

  lemma WithKeyAppend(es: seq<Entry>, x: Entry, k: int)
    ensures WithKey(es + [x], k) == WithKey(es, k) + (if x.key == k then [x] else [])
  {
    assert (es + [x])[..|es|] == es;
  }

  /** Every key in `es` is at most `bound`. */
  predicate KeysAtMost(es: seq<Entry>, bound: int) {
    forall i | 0 <= i < |es| :: es[i].key <= bound
  }

  lemma {:induction false} InsertSorted(sorted: seq<Entry>, x: Entry, bound: int)
    requires Sorted(sorted) && KeysAtMost(sorted, bound) && x.key <= bound
    ensures Sorted(Insert(sorted, x))
    ensures KeysAtMost(Insert(sorted, x), bound)
    decreases |sorted|
  {
    if |sorted| == 0 || sorted[|sorted| - 1].key <= x.key {
      var r := sorted + [x];
      forall i, j | 0 <= i < j < |r|
        ensures r[i].key <= r[j].key
      {
        if j == |sorted| && i < |sorted| {
          assert r[i] == sorted[i];
          assert sorted[i].key <= sorted[|sorted| - 1].key;
        }
      }
    } else {
      var init := sorted[..|sorted| - 1];
      var y := sorted[|sorted| - 1];
      InsertSorted(init, x, y.key);
      var r := Insert(init, x);
      InsertBeforeLast(sorted, x);
      var r' := r + [y];
      forall i, j | 0 <= i < j < |r'|
        ensures r'[i].key <= r'[j].key
      {
        if j < |r| {
          assert r'[i] == r[i] && r'[j] == r[j];
        }
      }
    }
  }

  lemma {:induction false} InsertWithKey(sorted: seq<Entry>, x: Entry, k: int)
    ensures WithKey(Insert(sorted, x), k) == WithKey(sorted, k) + (if x.key == k then [x] else [])
    decreases |sorted|
  {
    if |sorted| == 0 || sorted[|sorted| - 1].key <= x.key {
      WithKeyAppend(sorted, x, k);
    } else {
      var init := sorted[..|sorted| - 1];
      var y := sorted[|sorted| - 1];
      var r := Insert(init, x);
      assert sorted == init + [y];
      InsertBeforeLast(sorted, x);
      var ys: seq<Entry> := if y.key == k then [y] else [];
      var xs: seq<Entry> := if x.key == k then [x] else [];
      InsertWithKey(init, x, k);
      WithKeyAppend(r, y, k);
      WithKeyAppend(init, y, k);
      assert WithKey(r + [y], k) == WithKey(init, k) + xs + ys;
      assert WithKey(sorted, k) == WithKey(init, k) + ys;
      assert xs == [] || ys == [];
    }
  }

  /** The insertion sort is a stable sort. */
  lemma {:induction false} SortEntriesIsStable(es: seq<Entry>)
    ensures StableOrderOf(SortEntries(es), es)
  {
    SortEntriesSorted(es);
    forall k: int
      ensures WithKey(SortEntries(es), k) == WithKey(es, k)
    {
      SortEntriesWithKey(es, k);
    }
  }

  lemma {:induction false} SortEntriesSorted(es: seq<Entry>)
    ensures Sorted(SortEntries(es))
    decreases |es|
  {
    if |es| > 0 {
      var init := es[..|es| - 1];
      var x := es[|es| - 1];
      var sorted := SortEntries(init);
      SortEntriesSorted(init);
      var bound := if |sorted| > 0 && sorted[|sorted| - 1].key > x.key then sorted[|sorted| - 1].key else x.key;
      forall i | 0 <= i < |sorted|
        ensures sorted[i].key <= bound
      {
        if i < |sorted| - 1 {
          assert sorted[i].key <= sorted[|sorted| - 1].key;
        }
      }
      InsertSorted(sorted, x, bound);
    }
  }

  lemma {:induction false} SortEntriesWithKey(es: seq<Entry>, k: int)
    ensures WithKey(SortEntries(es), k) == WithKey(es, k)
    decreases |es|
  {
    if |es| > 0 {
      var init := es[..|es| - 1];
      var x := es[|es| - 1];
      SortEntriesWithKey(init, k);
      InsertWithKey(SortEntries(init), x, k);
    }
  }

  lemma {:induction false} WithKeyMember(es: seq<Entry>, k: int)
    requires |WithKey(es, k)| > 0
    ensures exists i | 0 <= i < |es| :: es[i].key == k
    decreases |es|
  {
    var init := es[..|es| - 1];
    if es[|es| - 1].key != k {
      WithKeyMember(init, k);
      var i :| 0 <= i < |init| && init[i].key == k;
      assert es[i] == init[i];
    }
  }

  /** There is only one stable order of a sequence, so the insertion sort
      gives the same sequence as any other stable sort, Python's among them. */
  lemma {:induction false} StableOrderUnique(a: seq<Entry>, b: seq<Entry>)
    requires Sorted(a) && Sorted(b)
    requires forall k: int :: WithKey(a, k) == WithKey(b, k)
    ensures a == b
    decreases |a| + |b|
  {
    if |a| == 0 && |b| > 0 {
      var y := b[|b| - 1];
      assert b == b[..|b| - 1] + [y];
      WithKeyAppend(b[..|b| - 1], y, y.key);
    } else if |a| > 0 && |b| == 0 {
      var x := a[|a| - 1];
      assert a == a[..|a| - 1] + [x];
      WithKeyAppend(a[..|a| - 1], x, x.key);
    } else if |a| > 0 {
      var a', x := a[..|a| - 1], a[|a| - 1];
      var b', y := b[..|b| - 1], b[|b| - 1];
      assert a == a' + [x];
      assert b == b' + [y];
      SameLast(a, b);
      DropLast(a', b', x);
      SortedPrefix(a);
      SortedPrefix(b);
      StableOrderUnique(a', b');
    }
  }

  /** Two sorted sequences with the same entries per key end in the same entry. */
  lemma SameLast(a: seq<Entry>, b: seq<Entry>)
    requires |a| > 0 && |b| > 0
    requires Sorted(a) && Sorted(b)
    requires forall k: int :: WithKey(a, k) == WithKey(b, k)
    ensures a[|a| - 1] == b[|b| - 1]
  {
    var a', x := a[..|a| - 1], a[|a| - 1];
    var b', y := b[..|b| - 1], b[|b| - 1];
    assert a == a' + [x];
    assert b == b' + [y];
    WithKeyAppend(b', y, y.key);
    WithKeyMember(a, y.key);
    var i :| 0 <= i < |a| && a[i].key == y.key;
    assert i == |a| - 1 || a[i].key <= x.key;
    WithKeyAppend(a', x, x.key);
    WithKeyMember(b, x.key);
    var j :| 0 <= j < |b| && b[j].key == x.key;
    assert j == |b| - 1 || b[j].key <= y.key;
    assert x.key == y.key;
    var wa := WithKey(a, x.key);
    assert wa == WithKey(a', x.key) + [x];
    assert wa == WithKey(b', x.key) + [y];
    assert wa[|wa| - 1] == x && wa[|wa| - 1] == y;
  }

  /** Removing the same last entry from both keeps the per-key sequences equal. */
  lemma DropLast(a: seq<Entry>, b: seq<Entry>, x: Entry)
    requires forall k: int :: WithKey(a + [x], k) == WithKey(b + [x], k)
    ensures forall k: int :: WithKey(a, k) == WithKey(b, k)
  {
    forall k: int
      ensures WithKey(a, k) == WithKey(b, k)
    {
      WithKeyAppend(a, x, k);
      WithKeyAppend(b, x, k);
      var w := WithKey(a + [x], k);
      assert w == WithKey(b + [x], k);
      if k == x.key {
        assert w[..|w| - 1] == WithKey(a, k);
        assert w[..|w| - 1] == WithKey(b, k);
      } else {
        assert WithKey(a, k) == w;
        assert WithKey(b, k) == w;
      }
    }
  }

  lemma SortedPrefix(a: seq<Entry>)
    requires |a| > 0 && Sorted(a)
    ensures Sorted(a[..|a| - 1])
  {
    var a' := a[..|a| - 1];
    forall p, q | 0 <= p < q < |a'|
      ensures a'[p].key <= a'[q].key
    {
      assert a'[p] == a[p] && a'[q] == a[q];
    }
  }

  /** A key function applied to each name in list order; the first name
      whose key fails raises that failure. */
  function KeyedBy(key: string -> Result<int>, names: seq<string>): (r: Result<seq<Entry>>)
    ensures r.Ok? ==> |r.value| == |names|
    decreases |names|
  {
    if |names| == 0 then Ok([])
    else
      var k :- key(names[0]);
      var rest :- KeyedBy(key, names[1..]);
      Ok([Entry(names[0], k)] + rest)
  }

  /** The keys `list.sort(key=file_sort_year_wise)` computes. */
  function Keyed(names: seq<string>): Result<seq<Entry>> {
    KeyedBy(SortKey, names)
  }

  /** Keying succeeds exactly when every name has a key; it then pairs each
      name with its key, and otherwise raises for the first name without one. */
  lemma {:induction false} KeyedBySpec(key: string -> Result<int>, names: seq<string>)
    ensures KeyedBy(key, names).Ok? <==> forall i | 0 <= i < |names| :: key(names[i]).Ok?
    ensures KeyedBy(key, names).Ok? ==> forall i | 0 <= i < |names| ::
      KeyedBy(key, names).value[i].name == names[i] && key(names[i]) == Ok(KeyedBy(key, names).value[i].key)
    ensures KeyedBy(key, names).Err? ==> exists i | 0 <= i < |names| ::
      && key(names[i]).Err?
      && KeyedBy(key, names).error == key(names[i]).error
      && forall j | 0 <= j < i :: key(names[j]).Ok?
    decreases |names|
  {
    if |names| > 0 {
      var rest := names[1..];
      KeyedBySpec(key, rest);
      var head := key(names[0]);
      if head.Ok? {
        var r := KeyedBy(key, rest);
        if r.Err? {
          var i :| 0 <= i < |rest| && key(rest[i]).Err? && r.error == key(rest[i]).error
            && forall j | 0 <= j < i :: key(rest[j]).Ok?;
          assert names[i + 1] == rest[i];
          assert forall j | 1 <= j < i + 1 :: names[j] == rest[j - 1];
        } else {
          var es := [Entry(names[0], head.value)] + r.value;
          assert KeyedBy(key, names) == Ok(es);
          forall i | 0 < i < |names|
            ensures es[i].name == names[i] && key(names[i]) == Ok(es[i].key)
          {
            assert names[i] == rest[i - 1] && es[i] == r.value[i - 1];
          }
        }
      }
    }
  }

  /** The file names' keys: each name paired with its key, or the error of
      the first name that has none. */
  lemma KeyedSpec(names: seq<string>)
    ensures Keyed(names).Ok? <==> forall i | 0 <= i < |names| :: SortKey(names[i]).Ok?
    ensures Keyed(names).Ok? ==> forall i | 0 <= i < |names| ::
      Keyed(names).value[i].name == names[i] && SortKey(names[i]) == Ok(Keyed(names).value[i].key)
    ensures Keyed(names).Err? ==> exists i | 0 <= i < |names| ::
      && Keyed(names).error == UnsortableName(Substitute(names[i], 0))
      && forall j | 0 <= j < i :: SortKey(names[j]).Ok?
  {
    KeyedBySpec(SortKey, names);
  }

  /** `names.sort(key=file_sort_year_wise)`: fails exactly when some name
      has no key, and otherwise orders the keyed names stably by key. */
  function OrderFileNames(names: seq<string>): (r: Result<seq<string>>)
    ensures r.Ok? <==> Keyed(names).Ok?
    ensures r.Err? ==> r.error == Keyed(names).error
    ensures r.Ok? ==>
      && StableOrderOf(SortEntries(Keyed(names).value), Keyed(names).value)
      && r.value == NamesOf(SortEntries(Keyed(names).value))
  {
    var es :- Keyed(names);
    SortEntriesIsStable(es);
    Ok(NamesOf(SortEntries(es)))
  }

  /** Every entry carries the key `key` gives its name. */
  ghost predicate KeysMatch(key: string -> Result<int>, es: seq<Entry>) {
    forall i | 0 <= i < |es| :: key(es[i].name) == Ok(es[i].key)
  }

  lemma SortKeepsKeys(key: string -> Result<int>, es: seq<Entry>)
    requires KeysMatch(key, es)
    ensures KeysMatch(key, SortEntries(es))
  {
    var sorted := SortEntries(es);
    SortEntriesPermutes(es);
    forall i | 0 <= i < |sorted|
      ensures key(sorted[i].name) == Ok(sorted[i].key)
    {
      assert sorted[i] in multiset(es);
      var j :| 0 <= j < |es| && es[j] == sorted[i];
    }
  }

  /** Sorting entries whose keys come from `key` hands back the same names,
      with `key` never decreasing along them. */
  lemma {:induction false} OrderedBy(key: string -> Result<int>, es: seq<Entry>)
    requires KeysMatch(key, es)
    ensures var r := NamesOf(SortEntries(es));
      && multiset(r) == multiset(NamesOf(es))
      && (forall i | 0 <= i < |r| :: key(r[i]).Ok?)
      && (forall i, j | 0 <= i < j < |r| :: key(r[i]).value <= key(r[j]).value)
  {
    SortKeepsKeys(key, es);
    SortEntriesSorted(es);
    SortEntriesPermutes(es);
  }

  /** A successful sort hands back the same names, each with a key, with
      keys never decreasing. */
  lemma OrderedNames(names: seq<string>)
    requires OrderFileNames(names).Ok?
    ensures var r := OrderFileNames(names).value;
      && multiset(r) == multiset(names)
      && (forall i | 0 <= i < |r| :: SortKey(r[i]).Ok?)
      && (forall i, j | 0 <= i < j < |r| :: SortKey(r[i]).value <= SortKey(r[j]).value)
  {
    var es := Keyed(names).value;
    KeyedBySpec(SortKey, names);
    assert NamesOf(es) == names;
    OrderedBy(SortKey, es);
  }

  /*
   * `prepare_list_of_files`.
   */

  /** The names that end in `txt` (with or without a dot), in listing order. */
  function TextNames(entries: seq<string>): (r: seq<string>)
    ensures forall i | 0 <= i < |r| :: EndsWith(r[i], "txt")
    ensures forall n :: multiset(r)[n] == if EndsWith(n, "txt") then multiset(entries)[n] else 0
    decreases |entries|
  {
    if |entries| == 0 then []
    else
      var init := entries[..|entries| - 1];
      var last := entries[|entries| - 1];
      assert entries == init + [last];
      TextNames(init) + (if EndsWith(last, "txt") then [last] else [])
  }

  /** The filter keeps listing order: the kept names of a listing split in
      two are those of the first part followed by those of the second. */
  lemma {:induction false} TextNamesAppend(a: seq<string>, b: seq<string>)
    ensures TextNames(a + b) == TextNames(a) + TextNames(b)
    decreases |b|
  {
    if |b| == 0 {
      assert a + b == a;
    } else {
      var init := b[..|b| - 1];
      var last := b[|b| - 1];
      var tail := if EndsWith(last, "txt") then [last] else [];
      assert b == init + [last];
      assert a + b == (a + init) + [last];
      TextNamesAppend(a, init);
      TextNamesSnoc(a + init, last);
      TextNamesSnoc(init, last);
      var ta, ti := TextNames(a), TextNames(init);
      assert TextNames(a + b) == (ta + ti) + tail;
      assert TextNames(b) == ti + tail;
      ConcatAssoc(ta, ti, tail);
    }
  }

  lemma ConcatAssoc<T>(x: seq<T>, y: seq<T>, z: seq<T>)
    ensures (x + y) + z == x + (y + z)
  {
  }

  lemma SplitJoin<T>(s: seq<T>, k: nat)
    requires k <= |s|
    ensures s[..k] + s[k..] == s
  {
  }

  /** One more entry at the end of a listing adds at most that entry at the
      end of the kept names. */
  lemma TextNamesSnoc(xs: seq<string>, x: string)
    ensures TextNames(xs + [x]) == TextNames(xs) + if EndsWith(x, "txt") then [x] else []
  {
    var ys := xs + [x];
    assert ys[..|ys| - 1] == xs;
  }

  /** A single entry is kept exactly when it ends in `txt`. */
  lemma TextNamesSingle(n: string)
    ensures TextNames([n]) == if EndsWith(n, "txt") then [n] else []
  {
    assert [n] == [] + [n];
  }

  /** Each name turned into a path under `dir`. */
  function Prefixed(dir: string, names: seq<string>): (r: seq<string>)
    ensures |r| == |names|
    ensures forall i | 0 <= i < |r| :: r[i] == dir + "/" + names[i]
  {
    seq(|names|, i requires 0 <= i < |names| => dir + "/" + names[i])
  }

  /** The directory a ticker's filings are looked for in. */
  function TickerDir(root: string, ticker: string): string {
    root + "/" + Lower(ticker)
  }

  /** The directory a ticker's filings of one form are looked for in. */
  function FormDir(root: string, ticker: string, formType: string): string {
    TickerDir(root, ticker) + "/" + Lower(formType)
  }

  /** `prepare_list_of_files(ticker, form_type)` with the store rooted at `root`.
      The ticker is looked up in the root listing as given, but the paths
      use its lower-case form. */
  function PrepareListOfFiles(fs: FileSystem, root: string, ticker: string, formType: string)
    : (r: Result<seq<string>>)
    ensures fs.ListDir(root).Err? ==> r == Err(fs.ListDir(root).error)
    ensures root in fs.dirs && ticker !in fs.dirs[root] ==> r == Err(DirectoryMissing)
    ensures root in fs.dirs && ticker in fs.dirs[root] && !fs.Exists(FormDir(root, ticker, formType)) ==>
      r == Err(DirectoryMissing)
    ensures (&& root in fs.dirs && ticker in fs.dirs[root] && fs.Exists(FormDir(root, ticker, formType))
             && fs.ListDir(FormDir(root, ticker, formType)).Err?) ==>
      r == Err(fs.ListDir(FormDir(root, ticker, formType)).error)
    ensures (&& root in fs.dirs && ticker in fs.dirs[root] && FormDir(root, ticker, formType) in fs.dirs
             && OrderFileNames(TextNames(fs.dirs[FormDir(root, ticker, formType)])).Err?) ==>
      r == Err(OrderFileNames(TextNames(fs.dirs[FormDir(root, ticker, formType)])).error)
    ensures r.Ok? ==>
      && root in fs.dirs && ticker in fs.dirs[root]
      && FormDir(root, ticker, formType) in fs.dirs
      && OrderFileNames(TextNames(fs.dirs[FormDir(root, ticker, formType)])).Ok?
      && r.value == Prefixed(FormDir(root, ticker, formType),
                             OrderFileNames(TextNames(fs.dirs[FormDir(root, ticker, formType)])).value)
  {
    var listing :- fs.ListDir(root);
    var second := FormDir(root, ticker, formType);
    if ticker !in listing then Err(DirectoryMissing)
    else if !fs.Exists(second) then Err(DirectoryMissing)
    else
      var entries :- fs.ListDir(second);
      var names :- OrderFileNames(TextNames(entries));
      Ok(Prefixed(second, names))
  }

  /** A resolved list holds one path under the form directory for each
      `txt` entry of that directory, ordered as `OrderedNames` describes. */
  lemma ResolvedFiles(fs: FileSystem, root: string, ticker: string, formType: string)
    requires PrepareListOfFiles(fs, root, ticker, formType).Ok?
    ensures var dir := FormDir(root, ticker, formType);
      && dir in fs.dirs
      && OrderFileNames(TextNames(fs.dirs[dir])).Ok?
      && var names := OrderFileNames(TextNames(fs.dirs[dir])).value;
      && PrepareListOfFiles(fs, root, ticker, formType).value == Prefixed(dir, names)
      && multiset(names) == multiset(TextNames(fs.dirs[dir]))
      && forall i | 0 <= i < |names| :: EndsWith(names[i], "txt")
  {
    var dir := FormDir(root, ticker, formType);
    var txt := TextNames(fs.dirs[dir]);
    OrderedNames(txt);
    SameEndings(OrderFileNames(txt).value, txt);
  }

  /** The `txt` entries keep listing order before the stable sort, so a
      resolved list orders names with the same key as the directory listed
      them. */
  lemma ResolvedInListingOrder(entries: seq<string>)
    requires OrderFileNames(TextNames(entries)).Ok?
    ensures forall k | 0 <= k <= |entries| ::
      TextNames(entries) == TextNames(entries[..k]) + TextNames(entries[k..])
    ensures Keyed(TextNames(entries)).Ok?
    ensures StableOrderOf(SortEntries(Keyed(TextNames(entries)).value), Keyed(TextNames(entries)).value)
    ensures OrderFileNames(TextNames(entries)).value == NamesOf(SortEntries(Keyed(TextNames(entries)).value))
  {
    forall k | 0 <= k <= |entries|
      ensures TextNames(entries) == TextNames(entries[..k]) + TextNames(entries[k..])
    {
      SplitJoin(entries, k);
      TextNamesAppend(entries[..k], entries[k..]);
    }
  }

  lemma SameEndings(names: seq<string>, txt: seq<string>)
    requires multiset(names) == multiset(txt)
    requires forall i | 0 <= i < |txt| :: EndsWith(txt[i], "txt")
    ensures forall i | 0 <= i < |names| :: EndsWith(names[i], "txt")
  {
    forall i | 0 <= i < |names|
      ensures EndsWith(names[i], "txt")
    {
      assert names[i] in multiset(txt);
      var j :| 0 <= j < |txt| && txt[j] == names[i];
    }
  }

  /** Names that all end in `txt` are all kept, in order. */
  lemma {:induction false} AllTextNames(entries: seq<string>)
    requires forall i | 0 <= i < |entries| :: EndsWith(entries[i], "txt")
    ensures TextNames(entries) == entries
    decreases |entries|
  {
    if |entries| > 0 {
      var init := entries[..|entries| - 1];
      assert entries == init + [entries[|entries| - 1]];
      AllTextNames(init);
      TextNamesSnoc(init, entries[|entries| - 1]);
    }
  }

  /** A form directory whose entries are all `txt` names like `test1.txt`
      (a letter first, no `-`) fails with the ValueError of the first one
      listed. */
  lemma WrongNamingFormat(fs: FileSystem, root: string, ticker: string, formType: string)
    requires root in fs.dirs && ticker in fs.dirs[root]
    requires FormDir(root, ticker, formType) in fs.dirs
    requires var entries := fs.dirs[FormDir(root, ticker, formType)];
      && |entries| > 0
      && forall i | 0 <= i < |entries| ::
        && EndsWith(entries[i], "txt") && |entries[i]| > 0 && IsLetter(entries[i][0])
        && forall n | 0 <= n < |entries[i]| :: entries[i][n] != '-'
    ensures PrepareListOfFiles(fs, root, ticker, formType)
      == Err(UnsortableName(fs.dirs[FormDir(root, ticker, formType)][0]))
  {
    var entries := fs.dirs[FormDir(root, ticker, formType)];
    AllTextNames(entries);
    NameWithoutDash(entries[0]);
    var e := UnsortableName(entries[0]);
    assert Keyed(entries) == Err(e);
    assert OrderFileNames(TextNames(entries)) == Err(e);
  }

  /** An existing form directory without `txt` entries resolves to no files. */
  lemma NoTextFiles(fs: FileSystem, root: string, ticker: string, formType: string)
    requires root in fs.dirs && ticker in fs.dirs[root]
    requires FormDir(root, ticker, formType) in fs.dirs
    requires forall i | 0 <= i < |fs.dirs[FormDir(root, ticker, formType)]| ::
      !EndsWith(fs.dirs[FormDir(root, ticker, formType)][i], "txt")
    ensures PrepareListOfFiles(fs, root, ticker, formType) == Ok([])
  {
    var entries := fs.dirs[FormDir(root, ticker, formType)];
    var txt := TextNames(entries);
    if |txt| > 0 {
      assert false;
    }
  }

  /** Three filings of one filer listed as 2017, 2018, 2016 come out in year
      order, e.g. `0000320193-16-000001.txt`, `0000320193-17-000070.txt`,
      `0000320193-18-000145.txt`. */
  lemma ThreeFilingsInYearOrder(filer: string, s16: string, s17: string, s18: string)
    requires |filer| > 0 && AllDigits(filer)
    requires |s16| > 0 && AllDigits(s16) && |s17| > 0 && AllDigits(s17) && |s18| > 0 && AllDigits(s18)
    ensures var n16, n17, n18 := FilingName(filer, "16", s16), FilingName(filer, "17", s17),
                                 FilingName(filer, "18", s18);
      OrderFileNames([n17, n18, n16]) == Ok([n16, n17, n18])
  {
    var n16, n17, n18 := FilingName(filer, "16", s16), FilingName(filer, "17", s17),
                         FilingName(filer, "18", s18);
    assert DigitsValue("16") == 16 by { assert "16"[..1] == "1"; }
    assert DigitsValue("17") == 17 by { assert "17"[..1] == "1"; }
    assert DigitsValue("18") == 18 by { assert "18"[..1] == "1"; }
    ConventionKey(filer, "16", s16);
    ConventionKey(filer, "17", s17);
    ConventionKey(filer, "18", s18);
    KeyedThree(SortKey, n17, n18, n16);
    var x, y, z := Entry(n17, 17), Entry(n18, 18), Entry(n16, 16);
    assert Keyed([n17, n18, n16]) == Ok([x, y, z]);
    SortThree(x, y, z);
    NamesOfThree(z, x, y);
  }

  lemma NamesOfThree(a: Entry, b: Entry, c: Entry)
    ensures NamesOf([a, b, c]) == [a.name, b.name, c.name]
  {
    var r := NamesOf([a, b, c]);
    assert r[0] == a.name && r[1] == b.name && r[2] == c.name;
  }

  /** The conventional name `<filer>-<yy>-<sequence>.txt`. */
  function FilingName(filer: string, yy: string, sq: string): string {
    filer + "-" + yy + "-" + sq + ".txt"
  }

  lemma KeyedThree(key: string -> Result<int>, a: string, b: string, c: string)
    requires key(a).Ok? && key(b).Ok? && key(c).Ok?
    ensures KeyedBy(key, [a, b, c])
      == Ok([Entry(a, key(a).value), Entry(b, key(b).value), Entry(c, key(c).value)])
  {
    var ea, eb, ec := Entry(a, key(a).value), Entry(b, key(b).value), Entry(c, key(c).value);
    assert KeyedBy(key, []) == Ok([]);
    assert [c][0] == c && [c][1..] == [];
    assert [ec] + [] == [ec];
    assert KeyedBy(key, [c]) == Ok([ec]);
    assert [b, c][0] == b && [b, c][1..] == [c];
    assert [eb] + [ec] == [eb, ec];
    assert KeyedBy(key, [b, c]) == Ok([eb, ec]);
    assert [a, b, c][0] == a && [a, b, c][1..] == [b, c];
    assert [ea] + [eb, ec] == [ea, eb, ec];
  }

  /** A last entry with the smallest key is inserted in front. */
  lemma SortThree(x: Entry, y: Entry, z: Entry)
    requires z.key < x.key < y.key
    ensures SortEntries([x, y, z]) == [z, x, y]
  {
    var es := [x, y, z];
    assert es[..2] == [x, y];
    SortTwo(x, y);
    assert SortEntries(es) == Insert([x, y], z);
    InsertBeforeTwo(x, y, z);
  }

  lemma SortTwo(x: Entry, y: Entry)
    requires x.key <= y.key
    ensures SortEntries([x, y]) == [x, y]
  {
    assert [x, y][..1] == [x];
    assert [x][..0] == [];
    assert SortEntries([x]) == [x];
  }

  lemma InsertBeforeTwo(x: Entry, y: Entry, z: Entry)
    requires z.key < x.key <= y.key
    ensures Insert([x, y], z) == [z, x, y]
  {
    var one: seq<Entry> := [x];
    var two: seq<Entry> := [x, y];
    InsertBeforeLast(one, z);
    assert one[..0] == [];
    InsertIntoEmpty(z);
    assert Insert(one, z) == [z] + [x];
    InsertBeforeLast(two, z);
    assert two[..1] == one;
    var r := Insert(two, z);
    assert r == [z] + [x] + [y];
    assert |r| == 3 && r[0] == z && r[1] == x && r[2] == y;
  }

  lemma InsertIntoEmpty(x: Entry)
    ensures Insert([], x) == [x]
  {
  }

  /** An entry with a smaller key than the last one goes before it. */
  lemma InsertBeforeLast(sorted: seq<Entry>, x: Entry)
    requires |sorted| > 0 && x.key < sorted[|sorted| - 1].key
    ensures Insert(sorted, x) == Insert(sorted[..|sorted| - 1], x) + [sorted[|sorted| - 1]]
  {
  }

  /** The sort key is the two-digit year, so it wraps: a `D1-99-D3.txt`
      filing is keyed 99 and a `D1-00-D3.txt` filing 0, whatever the century. */
  lemma Year99Key(d1: string, d3: string)
    requires |d1| > 0 && AllDigits(d1) && |d3| > 0 && AllDigits(d3)
    ensures SortKey(d1 + "-" + "99" + "-" + d3 + ".txt") == Ok(99)
  {
    assert DigitsValue("99") == 99 by {
      assert "99"[..1] == "9";
    }
    ConventionKey(d1, "99", d3);
  }

  lemma Year00Key(d1: string, d3: string)
    requires |d1| > 0 && AllDigits(d1) && |d3| > 0 && AllDigits(d3)
    ensures SortKey(d1 + "-" + "00" + "-" + d3 + ".txt") == Ok(0)
  {
    assert DigitsValue("00") == 0 by {
      assert "00"[..1] == "0";
    }
    ConventionKey(d1, "00", d3);
  }

  /** In the resolved order a name with a smaller key comes first; in
      particular a `-00-` filing precedes a `-99-` filing. */
  lemma SmallerKeyFirst(names: seq<string>, i: int, j: int)
    requires OrderFileNames(names).Ok?
    requires 0 <= i < |OrderFileNames(names).value| && 0 <= j < |OrderFileNames(names).value|
    requires SortKey(OrderFileNames(names).value[j]).Ok? && SortKey(OrderFileNames(names).value[i]).Ok?
    requires SortKey(OrderFileNames(names).value[j]).value < SortKey(OrderFileNames(names).value[i]).value
    ensures j < i
  {
    OrderedNames(names);
  }
}
