/** The list logic of the HR service-request screen (`HRServiceRequests.jsx`): the two
    exact-match filters, the column sort and its header toggle, the list of request types
    offered in the type filter, and the rows of the CSV export. All of it is pure. */
module ServiceRequestQueries {
  import opened Wrappers
  import opened Records
  import opened Text

  /** The filter value meaning "no filter". */
  const ALL := "all"

  // ---------------------------------------------------------------- filtering

  /** A request passes both filters: each filter is `ALL` or equals the request's field. */
  predicate Matches(r: ServiceRequest, filterStatus: string, filterType: string) {
    && (filterStatus == ALL || r.status == filterStatus)
    && (filterType == ALL || r.details.requestType == filterType)
  }

  /** `serviceRequests.filter(...)` with the status and type filters. */
  function FilterRequests(rs: seq<ServiceRequest>, filterStatus: string, filterType: string): (r: seq<ServiceRequest>)
    ensures |r| <= |rs|
    ensures forall i :: 0 <= i < |r| ==> Matches(r[i], filterStatus, filterType)
  {
    if |rs| == 0 then []
    else (if Matches(rs[0], filterStatus, filterType) then [rs[0]] else []) + FilterRequests(rs[1..], filterStatus, filterType)
  }

  /** A matching request is kept as often as it occurs, any other is dropped. */
  lemma {:induction false} FilterRequestsSpec(rs: seq<ServiceRequest>, filterStatus: string, filterType: string)
    ensures forall x :: multiset(FilterRequests(rs, filterStatus, filterType))[x]
                        == if Matches(x, filterStatus, filterType) then multiset(rs)[x] else 0
  {
    if |rs| > 0 {
      assert rs == [rs[0]] + rs[1..];
      FilterRequestsSpec(rs[1..], filterStatus, filterType);
    }
  }

  /** With both filters at `ALL` the list is shown as it is. */
  lemma {:induction false} FilterAllIsIdentity(rs: seq<ServiceRequest>)
    ensures FilterRequests(rs, ALL, ALL) == rs
  {
    if |rs| > 0 {
      FilterAllIsIdentity(rs[1..]);
      assert rs == [rs[0]] + rs[1..];
    }
  }

  /** Filtering keeps the input order: it distributes over concatenation. */
  lemma {:induction false} FilterAppend(a: seq<ServiceRequest>, b: seq<ServiceRequest>, filterStatus: string, filterType: string)
    ensures FilterRequests(a + b, filterStatus, filterType)
            == FilterRequests(a, filterStatus, filterType) + FilterRequests(b, filterStatus, filterType)
  {
    if |a| == 0 {
      assert a + b == b;
    } else {
      assert (a + b)[0] == a[0] && (a + b)[1..] == a[1..] + b;
      FilterAppend(a[1..], b, filterStatus, filterType);
    }
  }

  /** The Pending and Resolved cards count exactly the rows the status filter shows for that
      status with the type filter at `ALL`. */
  lemma {:induction false} CountIsFilteredLength(rs: seq<ServiceRequest>, status: string)
    requires status != ALL
    ensures CountStatus(rs, status) == |FilterRequests(rs, status, ALL)|
  {
    if |rs| > 0 {
      CountIsFilteredLength(rs[1..], status);
    }
  }

  // ---------------------------------------------------------------- sorting

  /** The sortable columns. */
  datatype SortKey = Id | EmployeeName | RequestType | Status | CreatedAt

  datatype Direction = Asc | Desc

  datatype SortConfig = SortConfig(key: SortKey, direction: Direction)

  /** The screen opens sorted newest first. */
  const INITIAL_SORT := SortConfig(CreatedAt, Desc)

  /** `handleSort(key)`: the same column while ascending turns descending; anything else
      sorts the clicked column ascending. */
  function NextSort(prev: SortConfig, key: SortKey): (r: SortConfig)
    ensures r.key == key
  {
    SortConfig(key, if prev.key == key && prev.direction == Asc then Desc else Asc)
  }

  /** The three cases of the header click, and that a second click on the same column
      always flips the direction the first click chose. */
  lemma NextSortCases(prev: SortConfig, key: SortKey)
    ensures key != prev.key ==> NextSort(prev, key) == SortConfig(key, Asc)
    ensures key == prev.key && prev.direction == Asc ==> NextSort(prev, key) == SortConfig(key, Desc)
    ensures key == prev.key && prev.direction == Desc ==> NextSort(prev, key) == SortConfig(key, Asc)
    ensures NextSort(NextSort(prev, key), key).direction != NextSort(prev, key).direction
  {
  }

  /** A sort key's value: a number, a string, or JavaScript's `undefined` for a missing name. */
  datatype SortValue = Num(n: int) | Str(s: string) | Undefined

  /** `a[sortConfig.key]`, with `createdAt` read as an instant and a missing one as 0. */
  function KeyOf(r: ServiceRequest, key: SortKey): SortValue {
    match key
    case Id => Num(r.id)
    case EmployeeName => if r.details.employeeName.Some? then Str(r.details.employeeName.value) else Undefined
    case RequestType => Str(r.details.requestType)
    case Status => Str(r.status)
    case CreatedAt => Num(r.createdAt.GetOr(0))
  }

  /** JavaScript's `<` on two key values. Anything compared with `undefined` is false. */
  predicate Less(u: SortValue, v: SortValue) {
    match (u, v)
    case (Num(a), Num(b)) => a < b
    case (Str(a), Str(b)) => LexLess(a, b)
    case _ => false
  }

  lemma LessAsymmetric(u: SortValue, v: SortValue)
    requires Less(u, v)
    ensures !Less(v, u) && u != v
  {
    if u.Str? {
      LexAsymmetric(u.s, v.s);
      LexIrreflexive(u.s);
    }
  }

  /** The sort's comparator: -1, 1 or 0, with the sign flipped when descending. */
  function Compare(a: ServiceRequest, b: ServiceRequest, cfg: SortConfig): (r: int)
    ensures -1 <= r <= 1
  {
    var u, v := KeyOf(a, cfg.key), KeyOf(b, cfg.key);
    if Less(u, v) then (if cfg.direction == Asc then -1 else 1)
    else if Less(v, u) then (if cfg.direction == Asc then 1 else -1)
    else 0
  }

  /** "`a` may stay before `b`": ascending, `b`'s key is not below `a`'s; descending, not above. */
  lemma CompareMeaning(a: ServiceRequest, b: ServiceRequest, cfg: SortConfig)
    ensures cfg.direction == Asc ==> (Compare(a, b, cfg) <= 0 <==> !Less(KeyOf(b, cfg.key), KeyOf(a, cfg.key)))
    ensures cfg.direction == Desc ==> (Compare(a, b, cfg) <= 0 <==> !Less(KeyOf(a, cfg.key), KeyOf(b, cfg.key)))
    ensures Compare(a, b, cfg) > 0 ==> Compare(b, a, cfg) <= 0 && KeyOf(a, cfg.key) != KeyOf(b, cfg.key)
  {
    var u, v := KeyOf(a, cfg.key), KeyOf(b, cfg.key);
    if Less(u, v) { LessAsymmetric(u, v); }
    if Less(v, u) { LessAsymmetric(v, u); }
  }

  /** No record has an `undefined` key for this column; the comparator is then consistent. */
  predicate AllDefined(s: seq<ServiceRequest>, key: SortKey) {
    forall i :: 0 <= i < |s| ==> !KeyOf(s[i], key).Undefined?
  }

  /** "Not after" is transitive on the defined values of one column. */
  lemma {:induction false} NotLessTransitive(a: ServiceRequest, b: ServiceRequest, c: ServiceRequest, key: SortKey)
    requires !KeyOf(a, key).Undefined? && !KeyOf(b, key).Undefined? && !KeyOf(c, key).Undefined?
    requires !Less(KeyOf(b, key), KeyOf(a, key)) && !Less(KeyOf(c, key), KeyOf(b, key))
    ensures !Less(KeyOf(c, key), KeyOf(a, key))
  {
    var u, v, w := KeyOf(a, key), KeyOf(b, key), KeyOf(c, key);
    if u.Str? {
      if LexLess(w.s, u.s) {
        LexTotal(u.s, v.s);
        if LexLess(u.s, v.s) {
          LexTransitive(w.s, u.s, v.s);
        }
        assert false;
      }
    }
  }

  lemma CompareTransitive(a: ServiceRequest, b: ServiceRequest, c: ServiceRequest, cfg: SortConfig)
    requires !KeyOf(a, cfg.key).Undefined? && !KeyOf(b, cfg.key).Undefined? && !KeyOf(c, cfg.key).Undefined?
    requires Compare(a, b, cfg) <= 0 && Compare(b, c, cfg) <= 0
    ensures Compare(a, c, cfg) <= 0
  {
    CompareMeaning(a, b, cfg);
    CompareMeaning(b, c, cfg);
    CompareMeaning(a, c, cfg);
    if cfg.direction == Asc {
      NotLessTransitive(a, b, c, cfg.key);
    } else {
      NotLessTransitive(c, b, a, cfg.key);
    }
  }

  /** Insert `x` before the first element it does not compare after. */
  function InsertRequest(x: ServiceRequest, ys: seq<ServiceRequest>, cfg: SortConfig): (r: seq<ServiceRequest>)
    ensures |r| == |ys| + 1 && multiset(r) == multiset(ys) + multiset{x}
  {
    if |ys| == 0 then [x]
    else if Compare(x, ys[0], cfg) <= 0 then [x] + ys
    else
      assert ys == [ys[0]] + ys[1..];
      [ys[0]] + InsertRequest(x, ys[1..], cfg)
  }

  /** `[...filtered].sort(comparator)`: a stable sort, here insertion sort. */
  function SortRequests(rs: seq<ServiceRequest>, cfg: SortConfig): (r: seq<ServiceRequest>)
    ensures |r| == |rs| && multiset(r) == multiset(rs)
  {
    if |rs| == 0 then []
    else
      assert rs == [rs[0]] + rs[1..];
      InsertRequest(rs[0], SortRequests(rs[1..], cfg), cfg)
  }

  /** Every earlier element may stay before every later one. */
  predicate Ordered(s: seq<ServiceRequest>, cfg: SortConfig) {
    forall i, j :: 0 <= i < j < |s| ==> Compare(s[i], s[j], cfg) <= 0
  }

  /** An element that may stay before every element of an ordered list may head it. */
  lemma OrderedCons(y: ServiceRequest, t: seq<ServiceRequest>, cfg: SortConfig)
    requires Ordered(t, cfg)
    requires forall j :: 0 <= j < |t| ==> Compare(y, t[j], cfg) <= 0
    ensures Ordered([y] + t, cfg)
  {
    var s := [y] + t;
    forall i, j | 0 <= i < j < |s| ensures Compare(s[i], s[j], cfg) <= 0 {
      assert s[j] == t[j - 1];
      if i > 0 { assert s[i] == t[i - 1]; }
    }
  }

  /** The tail of an ordered list is ordered, and comes after its head. */
  lemma OrderedTail(ys: seq<ServiceRequest>, cfg: SortConfig)
    requires |ys| > 0 && Ordered(ys, cfg)
    ensures Ordered(ys[1..], cfg)
    ensures forall j :: 0 <= j < |ys| - 1 ==> Compare(ys[0], ys[1..][j], cfg) <= 0
  {
    forall i, j | 0 <= i < j < |ys| - 1 ensures Compare(ys[1..][i], ys[1..][j], cfg) <= 0 {
      assert ys[1..][i] == ys[i + 1] && ys[1..][j] == ys[j + 1];
    }
    forall j | 0 <= j < |ys| - 1 ensures Compare(ys[0], ys[1..][j], cfg) <= 0 {
      assert ys[1..][j] == ys[j + 1];
    }
  }

  /** An element that may stay before the head of an ordered list may stay before all of it. */
  lemma BeforeHead(x: ServiceRequest, ys: seq<ServiceRequest>, cfg: SortConfig)
    requires |ys| > 0 && Ordered(ys, cfg) && AllDefined(ys, cfg.key) && !KeyOf(x, cfg.key).Undefined?
    requires Compare(x, ys[0], cfg) <= 0
    ensures forall j :: 0 <= j < |ys| ==> Compare(x, ys[j], cfg) <= 0
  {
    forall j | 0 <= j < |ys| ensures Compare(x, ys[j], cfg) <= 0 {
      if j > 0 { CompareTransitive(x, ys[0], ys[j], cfg); }
    }
  }

  /** An element that may stay before `x` and before every element of `rest` may stay
      before every element of any list holding exactly those. */
  lemma BeforeAll(y: ServiceRequest, x: ServiceRequest, rest: seq<ServiceRequest>, t: seq<ServiceRequest>, cfg: SortConfig)
    requires multiset(t) == multiset(rest) + multiset{x}
    requires Compare(y, x, cfg) <= 0
    requires forall j :: 0 <= j < |rest| ==> Compare(y, rest[j], cfg) <= 0
    ensures forall j :: 0 <= j < |t| ==> Compare(y, t[j], cfg) <= 0
  {
    forall j | 0 <= j < |t| ensures Compare(y, t[j], cfg) <= 0 {
      assert t[j] in multiset(t);
      if t[j] != x {
        assert t[j] in multiset(rest);
        var k :| 0 <= k < |rest| && rest[k] == t[j];
      }
    }
  }

  lemma {:induction false} InsertOrdered(x: ServiceRequest, ys: seq<ServiceRequest>, cfg: SortConfig)
    requires Ordered(ys, cfg) && AllDefined(ys, cfg.key) && !KeyOf(x, cfg.key).Undefined?
    ensures Ordered(InsertRequest(x, ys, cfg), cfg)
  {
    if |ys| > 0 {
      var y, rest := ys[0], ys[1..];
      if Compare(x, y, cfg) <= 0 {
        BeforeHead(x, ys, cfg);
        OrderedCons(x, ys, cfg);
      } else {
        CompareMeaning(x, y, cfg);
        OrderedTail(ys, cfg);
        assert AllDefined(rest, cfg.key) by {
          forall j | 0 <= j < |rest| ensures !KeyOf(rest[j], cfg.key).Undefined? { assert rest[j] == ys[j + 1]; }
        }
        InsertOrdered(x, rest, cfg);
        var t := InsertRequest(x, rest, cfg);
        BeforeAll(y, x, rest, t, cfg);
        OrderedCons(y, t, cfg);
      }
    }
  }

  /** When the column has no missing values, the sorted list is ordered by the comparator. */
  lemma {:induction false} SortOrdered(rs: seq<ServiceRequest>, cfg: SortConfig)
    requires AllDefined(rs, cfg.key)
    ensures Ordered(SortRequests(rs, cfg), cfg)
  {
    if |rs| > 0 {
      SortOrdered(rs[1..], cfg);
      var t := SortRequests(rs[1..], cfg);
      forall i | 0 <= i < |t| ensures !KeyOf(t[i], cfg.key).Undefined? {
        assert t[i] in multiset(rs[1..]);
      }
      InsertOrdered(rs[0], t, cfg);
    }
  }

  /** Ascending gives non-decreasing keys, descending non-increasing ones. */
  lemma SortDirection(rs: seq<ServiceRequest>, cfg: SortConfig)
    requires AllDefined(rs, cfg.key)
    ensures var r := SortRequests(rs, cfg);
            forall i, j :: 0 <= i < j < |r| ==>
              if cfg.direction == Asc then !Less(KeyOf(r[j], cfg.key), KeyOf(r[i], cfg.key))
              else !Less(KeyOf(r[i], cfg.key), KeyOf(r[j], cfg.key))
  {
    SortOrdered(rs, cfg);
    var r := SortRequests(rs, cfg);
    forall i, j | 0 <= i < j < |r| ensures
      if cfg.direction == Asc then !Less(KeyOf(r[j], cfg.key), KeyOf(r[i], cfg.key))
      else !Less(KeyOf(r[i], cfg.key), KeyOf(r[j], cfg.key))
    {
      CompareMeaning(r[i], r[j], cfg);
    }
  }

  /** The elements whose key on the column is `v`, in order. */
  function WithKey(s: seq<ServiceRequest>, key: SortKey, v: SortValue): seq<ServiceRequest> {
    if |s| == 0 then [] else (if KeyOf(s[0], key) == v then [s[0]] else []) + WithKey(s[1..], key, v)
  }

  /** `WithKey` on a list with a known first element. */
  lemma WithKeyCons(h: ServiceRequest, t: seq<ServiceRequest>, key: SortKey, v: SortValue)
    ensures WithKey([h] + t, key, v) == (if KeyOf(h, key) == v then [h] else []) + WithKey(t, key, v)
  {
    assert ([h] + t)[0] == h && ([h] + t)[1..] == t;
  }

  /** Two pieces one of which is empty can be swapped. */
  lemma SwapEmpty<T>(p: seq<T>, q: seq<T>, w: seq<T>)
    requires p == [] || q == []
    ensures p + (q + w) == q + (p + w)
  {
  }

  /** One step of the stability proof: putting `y` in front of both sides keeps them equal
      on key `v` when `x` and `y` do not share a key value. */
  lemma StableStep(x: ServiceRequest, y: ServiceRequest, t: seq<ServiceRequest>, ins: seq<ServiceRequest>, key: SortKey, v: SortValue)
    requires KeyOf(x, key) != KeyOf(y, key)
    requires WithKey(ins, key, v) == (if KeyOf(x, key) == v then [x] else []) + WithKey(t, key, v)
    ensures WithKey([y] + ins, key, v) == (if KeyOf(x, key) == v then [x] else []) + WithKey([y] + t, key, v)
  {
    WithKeyCons(y, ins, key, v);
    WithKeyCons(y, t, key, v);
    SwapEmpty(if KeyOf(y, key) == v then [y] else [], if KeyOf(x, key) == v then [x] else [], WithKey(t, key, v));
  }

  lemma {:induction false} InsertStable(x: ServiceRequest, ys: seq<ServiceRequest>, cfg: SortConfig, v: SortValue)
    ensures WithKey(InsertRequest(x, ys, cfg), cfg.key, v)
            == (if KeyOf(x, cfg.key) == v then [x] else []) + WithKey(ys, cfg.key, v)
  {
    if |ys| > 0 {
      var y, t := ys[0], ys[1..];
      assert [y] + t == ys;
      if Compare(x, y, cfg) <= 0 {
        WithKeyCons(x, ys, cfg.key, v);
      } else {
        CompareMeaning(x, y, cfg);
        InsertStable(x, t, cfg, v);
        StableStep(x, y, t, InsertRequest(x, t, cfg), cfg.key, v);
      }
    }
  }

  /** The sort is stable: the requests sharing any one key value appear in the sorted list
      in the same relative order as in the input. */
  lemma {:induction false} SortStable(rs: seq<ServiceRequest>, cfg: SortConfig, v: SortValue)
    ensures WithKey(SortRequests(rs, cfg), cfg.key, v) == WithKey(rs, cfg.key, v)
  {
    if |rs| > 0 {
      SortStable(rs[1..], cfg, v);
      InsertStable(rs[0], SortRequests(rs[1..], cfg), cfg, v);
    }
  }

  /** What the table shows: the filtered requests, sorted. */
  function Visible(rs: seq<ServiceRequest>, filterStatus: string, filterType: string, cfg: SortConfig): (r: seq<ServiceRequest>)
    ensures multiset(r) == multiset(FilterRequests(rs, filterStatus, filterType))
    ensures forall x :: multiset(r)[x] == if Matches(x, filterStatus, filterType) then multiset(rs)[x] else 0
    ensures forall i :: 0 <= i < |r| ==> Matches(r[i], filterStatus, filterType)
  {
    FilterRequestsSpec(rs, filterStatus, filterType);
    var r := SortRequests(FilterRequests(rs, filterStatus, filterType), cfg);
    assert forall i :: 0 <= i < |r| ==> r[i] in multiset(FilterRequests(rs, filterStatus, filterType));
    r
  }

  // ---------------------------------------------------------------- request types

  predicate NoDuplicates(s: seq<string>) {
    forall i, j :: 0 <= i < j < |s| ==> s[i] != s[j]
  }

  /** `[...new Set(s)]`: the distinct values, in order of first occurrence. */
  function Dedup(s: seq<string>): (r: seq<string>)
    ensures NoDuplicates(r)
    ensures forall x :: x in r <==> x in s
  {
    if |s| == 0 then []
    else
      var d := Dedup(s[..|s| - 1]);
      assert s == s[..|s| - 1] + [s[|s| - 1]];
      if s[|s| - 1] in d then d else d + [s[|s| - 1]]
  }

  /** No later element is below an earlier one. */
  predicate SortedStrings(s: seq<string>) {
    forall i, j :: 0 <= i < j < |s| ==> !LexLess(s[j], s[i])
  }

  lemma NotLexLessTransitive(a: string, b: string, c: string)
    requires !LexLess(b, a) && !LexLess(c, b)
    ensures !LexLess(c, a)
  {
    if LexLess(c, a) {
      LexTotal(a, b);
      if LexLess(a, b) { LexTransitive(c, a, b); }
    }
  }

  function InsertString(x: string, ys: seq<string>): (r: seq<string>)
    ensures |r| == |ys| + 1 && multiset(r) == multiset(ys) + multiset{x}
  {
    if |ys| == 0 then [x]
    else if !LexLess(ys[0], x) then [x] + ys
    else
      assert ys == [ys[0]] + ys[1..];
      [ys[0]] + InsertString(x, ys[1..])
  }

  /** Array.prototype.sort with no comparator, on strings. */
  function SortStrings(s: seq<string>): (r: seq<string>)
    ensures |r| == |s| && multiset(r) == multiset(s)
  {
    if |s| == 0 then []
    else
      assert s == [s[0]] + s[1..];
      InsertString(s[0], SortStrings(s[1..]))
  }

  lemma {:induction false} InsertStringSorted(x: string, ys: seq<string>)
    requires SortedStrings(ys)
    ensures SortedStrings(InsertString(x, ys))
  {
    if |ys| > 0 {
      var r := InsertString(x, ys);
      if !LexLess(ys[0], x) {
        forall j | 1 <= j < |r| ensures !LexLess(r[j], r[0]) {
          if j > 1 { NotLexLessTransitive(x, ys[0], ys[j - 1]); }
        }
      } else {
        LexAsymmetric(ys[0], x);
        InsertStringSorted(x, ys[1..]);
        var t := InsertString(x, ys[1..]);
        forall j | 0 <= j < |t| ensures !LexLess(t[j], ys[0]) {
          assert t[j] in multiset(t);
          if t[j] != x {
            assert t[j] in multiset(ys[1..]);
            var k :| 0 <= k < |ys[1..]| && ys[1..][k] == t[j];
            assert ys[k + 1] == t[j];
          }
        }
      }
    }
  }

  /** Inserting an absent string into a list without duplicates gives a list without duplicates. */
  lemma {:induction false} InsertStringDistinct(x: string, ys: seq<string>)
    requires x !in ys && NoDuplicates(ys)
    ensures NoDuplicates(InsertString(x, ys))
  {
    if |ys| > 0 && LexLess(ys[0], x) {
      var y, rest := ys[0], ys[1..];
      assert x !in rest;
      assert y !in rest;
      InsertStringDistinct(x, rest);
      var t := InsertString(x, rest);
      forall j | 0 <= j < |t| ensures t[j] != y {
        assert t[j] in multiset(t);
      }
    }
  }

  lemma {:induction false} SortStringsSorted(s: seq<string>)
    ensures SortedStrings(SortStrings(s))
    ensures NoDuplicates(s) ==> NoDuplicates(SortStrings(s))
  {
    if |s| > 0 {
      SortStringsSorted(s[1..]);
      var t := SortStrings(s[1..]);
      if NoDuplicates(s) {
        assert s[0] !in s[1..];
        assert s[0] !in multiset(t);
        InsertStringDistinct(s[0], t);
      }
      InsertStringSorted(s[0], t);
    }
  }

  /** `serviceRequests.map(req => req.requestType)`. */
  function Types(rs: seq<ServiceRequest>): (r: seq<string>)
    ensures |r| == |rs| && forall i :: 0 <= i < |rs| ==> r[i] == rs[i].details.requestType
  {
    seq(|rs|, i requires 0 <= i < |rs| => rs[i].details.requestType)
  }

  /** `uniqueTypes`: the distinct request types, sorted. */
  function UniqueTypes(rs: seq<ServiceRequest>): seq<string> {
    SortStrings(Dedup(Types(rs)))
  }

  /** The type filter's options are strictly increasing (so sorted and free of duplicates)
      and are exactly the request types present. */
  lemma UniqueTypesSpec(rs: seq<ServiceRequest>)
    ensures var u := UniqueTypes(rs);
            (forall i, j :: 0 <= i < j < |u| ==> LexLess(u[i], u[j]))
            && forall t :: t in u <==> exists k :: 0 <= k < |rs| && rs[k].details.requestType == t
  {
    var d := Dedup(Types(rs));
    var u := UniqueTypes(rs);
    SortStringsSorted(d);
    forall i, j | 0 <= i < j < |u| ensures LexLess(u[i], u[j]) {
      LexTotal(u[i], u[j]);
    }
    forall t ensures t in u <==> t in d {
      assert t in u <==> t in multiset(u);
      assert t in d <==> t in multiset(d);
    }
  }

  // ---------------------------------------------------------------- CSV export

  const CSV_HEADERS: seq<string> := ["ID", "Employee", "Type", "Description", "Status", "Created At"]

  /** A letter or a space: the only characters of the column names. */
  predicate WordChar(c: char) {
    ('A' <= c <= 'Z') || ('a' <= c <= 'z') || c == ' '
  }

  /** A character that is neither a letter nor a space occurs in no column name. */
  lemma HeadersAvoid(c: char)
    requires !WordChar(c)
    ensures forall k :: 0 <= k < |CSV_HEADERS| ==> c !in CSV_HEADERS[k]
  {
    forall k | 0 <= k < |CSV_HEADERS| ensures forall i :: 0 <= i < |CSV_HEADERS[k]| ==> WordChar(CSV_HEADERS[k][i]) {
    }
  }

  /** `req.employeeName || 'Unknown'`. */
  function NameCell(r: ServiceRequest): (c: string)
    ensures c == "Unknown" <== r.details.employeeName in {None, Some("")}
    ensures r.details.employeeName.Some? && r.details.employeeName.value != "" ==> c == r.details.employeeName.value
  {
    match r.details.employeeName
    case Some(n) => if n == "" then "Unknown" else n
    case None => "Unknown"
  }

  /** The six cells of a request's row; `formatDate` stands for `toLocaleDateString`. */
  function CsvCells(r: ServiceRequest, formatDate: int -> string): (cells: seq<string>)
    ensures |cells| == |CSV_HEADERS|
  {
    [ NatToString(r.id), NameCell(r), r.details.requestType, r.details.description, r.status,
      match r.createdAt case Some(t) => formatDate(t) case None => "" ]
  }

  /** `` `"${cell}"` ``: wrapped in double quotes, embedded quotes left as they are. */
  function Quote(cell: string): string {
    ['"'] + cell + ['"']
  }

  function QuoteAll(cells: seq<string>): (r: seq<string>)
    ensures |r| == |cells| && forall i :: 0 <= i < |cells| ==> r[i] == Quote(cells[i])
  {
    seq(|cells|, i requires 0 <= i < |cells| => Quote(cells[i]))
  }

  function CsvRow(r: ServiceRequest, formatDate: int -> string): string {
    Join(QuoteAll(CsvCells(r, formatDate)), ',')
  }

  /** The header line followed by one line per request. */
  function CsvLines(rs: seq<ServiceRequest>, formatDate: int -> string): (lines: seq<string>)
    ensures |lines| == |rs| + 1 && lines[0] == Join(CSV_HEADERS, ',')
    ensures forall i :: 0 <= i < |rs| ==> lines[i + 1] == CsvRow(rs[i], formatDate)
  {
    [Join(CSV_HEADERS, ',')] + seq(|rs|, i requires 0 <= i < |rs| => CsvRow(rs[i], formatDate))
  }

  /** The exported file's content. */
  function Csv(rs: seq<ServiceRequest>, formatDate: int -> string): string {
    Join(CsvLines(rs, formatDate), '\n')
  }

  /** The header line is written without quotes and splits into the six column names. */
  lemma CsvHeaderLine()
    ensures '"' !in Join(CSV_HEADERS, ',')
    ensures Split(Join(CSV_HEADERS, ','), ',') == CSV_HEADERS
  {
    HeadersAvoid('"');
    HeadersAvoid(',');
    JoinAvoids(CSV_HEADERS, ',', '"');
    SplitJoin(CSV_HEADERS, ',');
  }

  /** No cell of the request contains the character `c`. */
  predicate CellsAvoid(r: ServiceRequest, formatDate: int -> string, c: char) {
    forall k :: 0 <= k < |CsvCells(r, formatDate)| ==> c !in CsvCells(r, formatDate)[k]
  }

  /** When no cell holds a line break, the file splits back into the header and exactly one
      line per exported request, in the sorted order. */
  lemma CsvSplitsIntoLines(rs: seq<ServiceRequest>, formatDate: int -> string)
    requires forall i :: 0 <= i < |rs| ==> CellsAvoid(rs[i], formatDate, '\n')
    ensures Split(Csv(rs, formatDate), '\n') == CsvLines(rs, formatDate)
    ensures |Split(Csv(rs, formatDate), '\n')| == |rs| + 1
  {
    var lines := CsvLines(rs, formatDate);
    forall k | 0 <= k < |lines| ensures '\n' !in lines[k] {
      if k > 0 {
        assert lines[k] == CsvRow(rs[k - 1], formatDate);
        RowAvoids(rs[k - 1], formatDate, '\n');
      } else {
        HeadersAvoid('\n');
        JoinAvoids(CSV_HEADERS, ',', '\n');
      }
    }
    SplitJoin(lines, '\n');
  }

  /** A row contains a character other than `"` and `,` only where a cell does. */
  lemma RowAvoids(r: ServiceRequest, formatDate: int -> string, c: char)
    requires CellsAvoid(r, formatDate, c) && c != '"' && c != ','
    ensures c !in CsvRow(r, formatDate)
  {
    var q := QuoteAll(CsvCells(r, formatDate));
    JoinAvoids(q, ',', c);
  }

  lemma {:induction false} JoinAvoids(parts: seq<string>, sep: char, c: char)
    requires c != sep && forall k :: 0 <= k < |parts| ==> c !in parts[k]
    ensures c !in Join(parts, sep)
  {
    if |parts| > 1 {
      JoinAvoids(parts[1..], sep, c);
    }
  }

  /** When no cell holds a comma, a row splits back into its six quoted cells. */
  lemma CsvRowHasSixCells(r: ServiceRequest, formatDate: int -> string)
    requires CellsAvoid(r, formatDate, ',')
    ensures Split(CsvRow(r, formatDate), ',') == QuoteAll(CsvCells(r, formatDate))
    ensures |Split(CsvRow(r, formatDate), ',')| == 6
  {
    var cells := CsvCells(r, formatDate);
    var q := QuoteAll(cells);
    forall k | 0 <= k < |q| ensures ',' !in q[k] {
      assert q[k] == ['"'] + cells[k] + ['"'];
    }
    SplitJoin(q, ',');
  }

  /** Moving text across a `","` between two quoted cells does not change the output. */
  lemma QuotedPairShift(x1: string, y1: string, x2: string, y2: string)
    requires x1 + ['"', ',', '"'] + y1 == x2 + ['"', ',', '"'] + y2
    ensures Quote(x1) + [','] + Quote(y1) == Quote(x2) + [','] + Quote(y2)
  {
    assert Quote(x1) + [','] + Quote(y1) == ['"'] + (x1 + ['"', ',', '"'] + y1) + ['"'];
    assert Quote(x2) + [','] + Quote(y2) == ['"'] + (x2 + ['"', ',', '"'] + y2) + ['"'];
  }

  /** Two joins of six parts agree when the parts agree except that the second and third
      read the same once joined. */
  lemma JoinShift(q: seq<string>, r: seq<string>, sep: char)
    requires |q| == 6 && |r| == 6 && q[0] == r[0] && q[3..] == r[3..]
    requires q[1] + [sep] + q[2] == r[1] + [sep] + r[2]
    ensures Join(q, sep) == Join(r, sep)
  {
    assert q[1..][1..] == q[2..] && q[2..][1..] == q[3..];
    assert r[1..][1..] == r[2..] && r[2..][1..] == r[3..];
    assert Join(q[1..], sep) == (q[1] + [sep] + q[2]) + [sep] + Join(q[3..], sep);
    assert Join(r[1..], sep) == (r[1] + [sep] + r[2]) + [sep] + Join(r[3..], sep);
  }

  /** Two requests that agree on every cell but the name and type give the same row when
      their name and type cells read the same once joined by `","`. */
  lemma SameRowWhenShifted(a: ServiceRequest, b: ServiceRequest, formatDate: int -> string)
    requires a.id == b.id && a.status == b.status && a.createdAt == b.createdAt
    requires a.details.description == b.details.description
    requires NameCell(a) + ['"', ',', '"'] + a.details.requestType == NameCell(b) + ['"', ',', '"'] + b.details.requestType
    ensures CsvRow(a, formatDate) == CsvRow(b, formatDate)
  {
    var ca, cb := CsvCells(a, formatDate), CsvCells(b, formatDate);
    var qa, qb := QuoteAll(ca), QuoteAll(cb);
    assert ca[1] == NameCell(a) && ca[2] == a.details.requestType;
    assert cb[1] == NameCell(b) && cb[2] == b.details.requestType;
    QuotedPairShift(ca[1], ca[2], cb[1], cb[2]);
    assert ca[3..] == cb[3..];
    assert qa[3..] == qb[3..];
    JoinShift(qa, qb, ',');
  }

  /** Embedded quotes are not doubled (as section 2, rule 7 of RFC 4180 requires), so the
      export loses information: two different requests can produce the same line. */
  lemma CsvQuotesNotEscaped(formatDate: int -> string)
    ensures exists a: ServiceRequest, b: ServiceRequest :: a != b && CsvRow(a, formatDate) == CsvRow(b, formatDate)
  {
    var a := Request(1, 1, PENDING, None, ServiceDetails(Some("n"), "t\",\"d", "e"));
    var b := Request(1, 1, PENDING, None, ServiceDetails(Some("n\",\"t"), "d", "e"));
    assert a.details.requestType != b.details.requestType;
    assert NameCell(a) == "n" && NameCell(b) == "n\",\"t";
    assert NameCell(a) + ['"', ',', '"'] + a.details.requestType == NameCell(b) + ['"', ',', '"'] + b.details.requestType;
    SameRowWhenShifted(a, b, formatDate);
  }
}
