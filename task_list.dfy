/**
 * The client's view of the task list: every record the list endpoint returns
 * gets a numeric id, and the list is ordered by status (in progress, then
 * pending, then done) and, within a status, by id from newest to oldest.
 *
 * The source's comparator returns NaN, and so gives no order, in two cases:
 * a priority that is not a number (`undefined`, or an inherited
 * `Object.prototype` member) compared against a known status or against a
 * different non-number priority, and two records of the same priority one of
 * whose ids is NaN. The model makes both explicit: unknown statuses form a
 * fourth bucket after the known ones, and NaN ids come after every numeric id
 * in their bucket. Wherever the comparator returns a number the model's order
 * agrees with it (`ComparatorAgrees`).
 */
module TaskList {
  import opened Wrappers
  import opened JsText
  import Decimal
  import TaskStore

  /** What the JSON `id` field of a record may hold. */
  datatype IdValue = Number(n: JsNumber) | Text(s: string)

  /** A record as the list endpoint returns it; a field that is absent or null is `None`. */
  datatype RawTask = RawTask(
    id: Option<IdValue>,
    key: Option<string>,
    titulo: Option<string>,
    descricao: Option<string>,
    status: Option<string>,
    dataCriacao: Option<string>)

  /** A record after normalisation: the same fields, with `id` always a number. */
  datatype Task = Task(
    id: JsNumber,
    key: Option<string>,
    titulo: Option<string>,
    descricao: Option<string>,
    status: Option<string>,
    dataCriacao: Option<string>)

  const EmProgresso: string := "Em Progresso"
  const Pendente: string := "Pendente"
  const Concluida: string := "Concluída"

  /** `Number(v)` for an id value: a number is itself, a string is read by `Number`. */
  function ToNumber(v: IdValue): (n: JsNumber)
    ensures v.Number? ==> n == v.n
    ensures v.Text? && IsBlank(v.s) ==> n == Int(0)
    ensures v.Text? && !IsBlank(v.s) ==> (n.Int? <==> IsDecimalLiteral(Trim(v.s)))
  {
    match v
    case Number(n) => n
    case Text(s) => StringToNumber(s)
  }

  /**
   * `t.id ?? t["id"] ?? (t.key ? t.key.split(":")[1] : undefined)`, passed
   * through `Number`: a direct id wins; otherwise the second `:`-piece of a
   * non-empty key; otherwise `Number(undefined)`, which is NaN.
   */
  function ResolveId(t: RawTask): (n: JsNumber)
    ensures t.id.Some? && t.id.value.Number? ==> n == t.id.value.n
    ensures t.id.Some? && t.id.value.Text? ==> n == StringToNumber(t.id.value.s)
    ensures t.id.None? && (t.key.None? || ':' !in t.key.value) ==> n == NaN
  {
    match t.id
    case Some(v) => ToNumber(v)
    case None =>
      assert t.key.Some? && ':' !in t.key.value ==> |Split(t.key.value, ':')| == 1 by {
        if t.key.Some? && ':' !in t.key.value {
          SplitWithoutSep(t.key.value, ':');
        }
      }
      if t.key.Some? && t.key.value != [] then
        var parts := Split(t.key.value, ':');
        if |parts| >= 2 then StringToNumber(parts[1]) else NaN
      else NaN
  }

  /**
   * `{ ...t, id: Number(id) }`: only the id changes, and a direct numeric id is
   * kept as it is. A record with neither an id nor a key with a `:` in it (an
   * absent key, an empty one, or one of a single piece) gets NaN.
   */
  function Normalise(t: RawTask): (r: Task)
    ensures t.id.Some? && t.id.value.Number? ==> r.id == t.id.value.n
    ensures t.id.Some? && t.id.value.Text? ==> r.id == StringToNumber(t.id.value.s)
    ensures t.id.None? && (t.key.None? || ':' !in t.key.value) ==> r.id == NaN
    ensures r.key == t.key && r.titulo == t.titulo && r.descricao == t.descricao
    ensures r.status == t.status && r.dataCriacao == t.dataCriacao
  {
    Task(ResolveId(t), t.key, t.titulo, t.descricao, t.status, t.dataCriacao)
  }

  /**
   * A record without an id whose key is `<ns>:<seg>`, possibly followed by
   * more `:`-pieces, gets the number `seg` spells.
   */
  lemma KeyFallback(t: RawTask, ns: string, seg: string, rest: string)
    requires t.id.None? && t.key == Some(ns + [':'] + seg + rest)
    requires ':' !in ns && ':' !in seg
    requires rest == [] || rest[0] == ':'
    ensures Normalise(t).id == StringToNumber(seg)
  {
    var tail := [':'] + (seg + rest);
    assert t.key.value == ns + tail;
    SplitPrefix(ns, tail, ':');
    assert tail[1..] == seg + rest;
    assert Split(tail, ':') == [[]] + Split(seg + rest, ':');
    SplitPrefix(seg, rest, ':');
    assert Split(rest, ':')[0] == [] by {
      if rest != [] {
        assert Split(rest, ':') == [[]] + Split(rest[1..], ':');
      }
    }
    assert seg + [] == seg;
  }

  /**
   * The client's fallback reads back the server's key: a record known only by
   * its key `tarefa:<n>` gets the id `n`.
   */
  lemma ServerKeyRoundTrip(t: RawTask, n: int)
    requires t.id.None? && t.key == Some(TaskStore.Key(n))
    ensures Normalise(t).id == Int(n)
  {
    var ns, seg := "tarefa", Decimal.Show(n);
    assert TaskStore.Key(n) == ns + [':'] + seg;
    assert ':' !in seg by {
      if n >= 0 {
        assert Decimal.AllDigits(seg);
      } else {
        assert seg == [seg[0]] + seg[1..];
      }
    }
    assert TaskStore.Key(n) == ns + [':'] + seg + [];
    KeyFallback(t, ns, seg, []);
    NumberOfShow(n);
  }

  /** The display bucket of a status: 1, 2, 3 for the known ones, 4 for any other. */
  function Priority(status: Option<string>): (p: nat)
    ensures 1 <= p <= 4
    ensures p == 4 <==> status !in {Some(EmProgresso), Some(Pendente), Some(Concluida)}
  {
    if status == Some(EmProgresso) then 1
    else if status == Some(Pendente) then 2
    else if status == Some(Concluida) then 3
    else 4
  }

  /** Ids in descending order, NaN last. */
  predicate IdAtLeast(a: JsNumber, b: JsNumber)
    ensures a.Int? && b.Int? ==> (IdAtLeast(a, b) <==> a.value >= b.value)
    ensures a.NaN? && b.Int? ==> !IdAtLeast(a, b)
    ensures a.NaN? ==> (IdAtLeast(a, b) <==> b.NaN?)
  {
    match b
    case NaN => true
    case Int(j) => a.Int? && a.value >= j
  }

  /** `a` may be listed before `b`: a lower bucket, or the same bucket and an id at least as high. */
  predicate Precedes(a: Task, b: Task)
    ensures Priority(a.status) != Priority(b.status) ==> (Precedes(a, b) <==> Priority(a.status) < Priority(b.status))
    ensures Priority(a.status) == Priority(b.status) ==> (Precedes(a, b) <==> IdAtLeast(a.id, b.id))
  {
    || Priority(a.status) < Priority(b.status)
    || (Priority(a.status) == Priority(b.status) && IdAtLeast(a.id, b.id))
  }

  /** What the order compares: two records with the same rank are equivalent for it. */
  function Rank(t: Task): (k: (nat, JsNumber)) {
    (Priority(t.status), t.id)
  }

  /** The order is total, and it holds between records of the same rank. */
  lemma PrecedesTotal(a: Task, b: Task)
    ensures Precedes(a, b) || Precedes(b, a)
    ensures Rank(a) == Rank(b) ==> Precedes(a, b)
  {
  }

  /** The names an object literal inherits from `Object.prototype`. */
  const InheritedNames: set<string> := {
    "constructor", "hasOwnProperty", "isPrototypeOf", "propertyIsEnumerable",
    "toLocaleString", "toString", "valueOf", "__proto__",
    "__defineGetter__", "__defineSetter__", "__lookupGetter__", "__lookupSetter__"
  }

  /**
   * What `prioridade[status]` yields: a number for a known status; otherwise
   * something that is not a number, told apart by `!==` only through the
   * inherited member it names (`undefined` for every other status, an absent
   * status included, is the tag "").
   */
  datatype PriorityValue = Known(p: int) | NotNumber(tag: string)

  function Lookup(status: Option<string>): (v: PriorityValue)
    ensures v.Known? <==> Priority(status) <= 3
    ensures v.Known? ==> v.p == Priority(status)
  {
    if Priority(status) <= 3 then Known(Priority(status))
    else if status.Some? && status.value in InheritedNames then NotNumber(status.value)
    else NotNumber("")
  }

  /**
   * The source's comparator, `prioridade[a.status] !== prioridade[b.status]
   * ? prioridade[a.status] - prioridade[b.status] : b.id - a.id`, with `None`
   * for a NaN result.
   */
  function Comparator(a: Task, b: Task): (c: Option<int>)
    ensures c.None? ==> Priority(a.status) == 4 || Priority(b.status) == 4 || a.id.NaN? || b.id.NaN?
  {
    var pa, pb := Lookup(a.status), Lookup(b.status);
    if pa != pb then
      if pa.Known? && pb.Known? then Some(pa.p - pb.p) else None
    else if a.id.Int? && b.id.Int? then Some(b.id.value - a.id.value)
    else None
  }

  /**
   * Wherever the source's comparator returns a number, the model's order agrees
   * with it: `a` may come first exactly when the comparator is not positive.
   * This covers two records whose unknown statuses look up the same value.
   */
  lemma ComparatorAgrees(a: Task, b: Task)
    ensures Comparator(a, b).Some? ==> (Precedes(a, b) <==> Comparator(a, b).value <= 0)
    ensures (Priority(a.status) == 4 && Priority(b.status) == 4 && Lookup(a.status) == Lookup(b.status) &&
             a.id.Int? && b.id.Int?) ==> Comparator(a, b) == Some(b.id.value - a.id.value)
  {
  }

  ghost predicate Sorted(s: seq<Task>) {
    forall i, j :: 0 <= i < j < |s| ==> Precedes(s[i], s[j])
  }

  /** Places `x` before the first element it may precede, so after nothing of its own rank. */
  function Insert(x: Task, s: seq<Task>): (r: seq<Task>)
    ensures multiset(r) == multiset(s) + multiset{x}
  {
    if s == [] || Precedes(x, s[0]) then [x] + s
    else
      assert s == [s[0]] + s[1..];
      [s[0]] + Insert(x, s[1..])
  }

  lemma {:induction false} InsertBound(b: Task, x: Task, s: seq<Task>)
    requires Precedes(b, x) && forall i :: 0 <= i < |s| ==> Precedes(b, s[i])
    ensures forall i :: 0 <= i < |Insert(x, s)| ==> Precedes(b, Insert(x, s)[i])
  {
    if s != [] && !Precedes(x, s[0]) {
      InsertBound(b, x, s[1..]);
      assert Insert(x, s) == [s[0]] + Insert(x, s[1..]);
    }
  }

  lemma {:induction false} InsertSorted(x: Task, s: seq<Task>)
    requires Sorted(s)
    ensures Sorted(Insert(x, s))
  {
    if s != [] && !Precedes(x, s[0]) {
      InsertSorted(x, s[1..]);
      PrecedesTotal(x, s[0]);
      assert forall i :: 0 <= i < |s[1..]| ==> Precedes(s[0], s[1..][i]) by {
        forall i | 0 <= i < |s[1..]| ensures Precedes(s[0], s[1..][i]) {
          assert s[1..][i] == s[i + 1];
        }
      }
      InsertBound(s[0], x, s[1..]);
      var tail := Insert(x, s[1..]);
      var r := Insert(x, s);
      assert r == [s[0]] + tail;
      forall i, j | 0 <= i < j < |r| ensures Precedes(r[i], r[j]) {
        assert r[j] == tail[j - 1];
        if i > 0 {
          assert r[i] == tail[i - 1];
        }
      }
    }
  }

  /**
   * The stable sort `Array.prototype.sort` performs with the source's
   * comparator: an insertion sort that keeps records of equal rank in their
   * input order.
   */
  function SortForDisplay(s: seq<Task>): (r: seq<Task>)
    ensures multiset(r) == multiset(s)
    ensures Sorted(r)
  {
    if s == [] then []
    else
      assert s == [s[0]] + s[1..];
      InsertSorted(s[0], SortForDisplay(s[1..]));
      Insert(s[0], SortForDisplay(s[1..]))
  }

  /** The records of rank `k`, in order. */
  function OfRank(s: seq<Task>, k: (nat, JsNumber)): (r: seq<Task>) {
    if s == [] then [] else (if Rank(s[0]) == k then [s[0]] else []) + OfRank(s[1..], k)
  }

  lemma {:induction false} InsertOfRank(x: Task, s: seq<Task>, k: (nat, JsNumber))
    ensures OfRank(Insert(x, s), k) == (if Rank(x) == k then [x] else []) + OfRank(s, k)
  {
    if s == [] || Precedes(x, s[0]) {
      assert ([x] + s)[1..] == s;
    } else {
      PrecedesTotal(x, s[0]);
      InsertOfRank(x, s[1..], k);
      assert ([s[0]] + Insert(x, s[1..]))[1..] == Insert(x, s[1..]);
    }
  }

  /** Stability: the sort keeps the records of each rank in their input order. */
  lemma {:induction false} SortStable(s: seq<Task>, k: (nat, JsNumber))
    ensures OfRank(SortForDisplay(s), k) == OfRank(s, k)
  {
    if s != [] {
      SortStable(s[1..], k);
      InsertOfRank(s[0], SortForDisplay(s[1..]), k);
    }
  }

  /** A list already in display order is left as it is. */
  lemma {:induction false} SortSorted(s: seq<Task>)
    requires Sorted(s)
    ensures SortForDisplay(s) == s
  {
    if s != [] {
      assert Sorted(s[1..]) by {
        forall i, j | 0 <= i < j < |s[1..]| ensures Precedes(s[1..][i], s[1..][j]) {
          assert s[1..][i] == s[i + 1] && s[1..][j] == s[j + 1];
        }
      }
      SortSorted(s[1..]);
      assert s == [s[0]] + s[1..];
    }
  }

  function NormaliseAll(raw: seq<RawTask>): (r: seq<Task>)
    ensures |r| == |raw|
    ensures forall i :: 0 <= i < |raw| ==> r[i] == Normalise(raw[i])
  {
    seq(|raw|, i requires 0 <= i < |raw| => Normalise(raw[i]))
  }

  /**
   * The list `carregarTarefas` stores after a successful fetch: every record,
   * normalised, none dropped or duplicated; ordered by status bucket and,
   * within a bucket, by id from high to low; records of the same rank in
   * their response order.
   */
  function Project(raw: seq<RawTask>): (r: seq<Task>)
    ensures |r| == |raw|
    ensures multiset(r) == multiset(NormaliseAll(raw))
    ensures forall i :: 0 <= i < |r| - 1 ==> Priority(r[i].status) <= Priority(r[i + 1].status)
    ensures forall i :: 0 <= i < |r| - 1 && Priority(r[i].status) == Priority(r[i + 1].status) && r[i + 1].id.Int? ==>
      r[i].id.Int? && r[i].id.value >= r[i + 1].id.value
  {
    var r := SortForDisplay(NormaliseAll(raw));
    assert |r| == |multiset(r)| == |NormaliseAll(raw)|;
    assert forall i :: 0 <= i < |r| - 1 ==> Precedes(r[i], r[i + 1]);
    r
  }

  /** Records of the same rank appear in the projected list in their response order. */
  lemma ProjectStable(raw: seq<RawTask>, k: (nat, JsNumber))
    ensures OfRank(Project(raw), k) == OfRank(NormaliseAll(raw), k)
  {
    SortStable(NormaliseAll(raw), k);
  }

  /** The record a normalised task came from, had the server sent its numeric id. */
  function AsRaw(t: Task): (r: RawTask)
    ensures Normalise(r) == t
  {
    RawTask(Some(Number(t.id)), t.key, t.titulo, t.descricao, t.status, t.dataCriacao)
  }

  /** Projecting an already projected list again changes nothing. */
  lemma ProjectIdempotent(raw: seq<RawTask>)
    ensures var p := Project(raw); Project(seq(|p|, i requires 0 <= i < |p| => AsRaw(p[i]))) == p
  {
    var p := Project(raw);
    var again := seq(|p|, i requires 0 <= i < |p| => AsRaw(p[i]));
    assert NormaliseAll(again) == p;
    SortSorted(p);
  }

  /** A record the backend sends: numeric id, status and title, nothing else. */
  function Sent(id: int, status: string): (t: RawTask) {
    RawTask(Some(Number(Int(id))), None, Some("t"), None, Some(status), None)
  }

  lemma KnownPriorities()
    ensures Priority(Some(EmProgresso)) == 1 && Priority(Some(Pendente)) == 2 && Priority(Some(Concluida)) == 3
  {
  }

  lemma ThreeBuckets(a: Task, b: Task, c: Task)
    requires Priority(a.status) == 3 && Priority(b.status) == 2 && Priority(c.status) == 1
    ensures SortForDisplay([a, b, c]) == [c, b, a]
  {
  }

  /** One task per status, oldest done: listed in progress, pending, done. */
  lemma StatusOrderExample()
    ensures var p := Project([Sent(1, Concluida), Sent(2, Pendente), Sent(3, EmProgresso)]);
      |p| == 3 && p[0].id == Int(3) && p[1].id == Int(2) && p[2].id == Int(1)
  {
    var a, b, c := Normalise(Sent(1, Concluida)), Normalise(Sent(2, Pendente)), Normalise(Sent(3, EmProgresso));
    var raw := [Sent(1, Concluida), Sent(2, Pendente), Sent(3, EmProgresso)];
    assert NormaliseAll(raw) == [a, b, c];
    KnownPriorities();
    ThreeBuckets(a, b, c);
  }

  /** Two pending tasks: the higher id first. */
  lemma SameStatusExample()
    ensures var p := Project([Sent(5, Pendente), Sent(9, Pendente)]);
      |p| == 2 && p[0].id == Int(9) && p[1].id == Int(5)
  {
    var a, b := Normalise(Sent(5, Pendente)), Normalise(Sent(9, Pendente));
    assert NormaliseAll([Sent(5, Pendente), Sent(9, Pendente)]) == [a, b];
    assert [a, b][1..] == [b];
    assert SortForDisplay([b]) == [b];
    assert Insert(a, [b]) == [b, a];
  }
}
