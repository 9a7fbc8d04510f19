/**
 * The backend: a key/value store holding one JSON task per key `tarefa:<id>`
 * plus the counter `contador_tarefas`, and the four request handlers that read
 * and change it. The store is modelled as a map from id to task; `Key` is the
 * key each entry stands for, and `KeyInjective` shows that the map loses nothing.
 */
module TaskStore {
  import opened Wrappers
  import Decimal

  /** The request/response model: `id` is optional on input, the rest is required. */
  datatype Tarefa = Tarefa(id: Option<int>, titulo: string, descricao: string, status: string)

  const KeyPrefix: string := "tarefa:"
  const CounterKey: string := "contador_tarefas"
  const NotFoundDetail: string := "Tarefa não encontrada"
  const DeletedMessage: string := "Tarefa excluída com sucesso"

  /** The store key of the task with the given id. */
  function Key(id: int): (k: string)
    ensures KeyPrefix <= k
  {
    KeyPrefix + Decimal.Show(id)
  }

  /** Distinct ids have distinct keys, and no task key is the counter's key. */
  lemma KeyInjective(a: int, b: int)
    ensures Key(a) == Key(b) <==> a == b
    ensures Key(a) != CounterKey
  {
    if Key(a) == Key(b) {
      assert Decimal.Show(a) == Key(a)[|KeyPrefix|..];
      assert Decimal.Show(b) == Key(b)[|KeyPrefix|..];
      Decimal.ShowInjective(a, b);
    }
    assert Key(a)[0] != CounterKey[0];
  }

  /** A handler's answer: its body, or the 404 error it raises. */
  datatype Reply<T> = Ok(body: T) | NotFound(detail: string)

  predicate HasIds(s: seq<Tarefa>) {
    forall i :: 0 <= i < |s| ==> s[i].id.Some?
  }

  /** Ordered by `id`, as `sort(key=lambda x: x["id"])` leaves a list. */
  predicate SortedById(s: seq<Tarefa>)
    requires HasIds(s)
  {
    forall i, j :: 0 <= i < j < |s| ==> s[i].id.value <= s[j].id.value
  }

  predicate StrictlySortedById(s: seq<Tarefa>)
    requires HasIds(s)
  {
    forall i, j :: 0 <= i < j < |s| ==> s[i].id.value < s[j].id.value
  }

  predicate DistinctIds(s: seq<Tarefa>) {
    forall i, j :: 0 <= i < j < |s| ==> s[i].id != s[j].id
  }

  function InsertById(x: Tarefa, s: seq<Tarefa>): (r: seq<Tarefa>)
    requires x.id.Some? && HasIds(s)
    ensures multiset(r) == multiset(s) + multiset{x}
    ensures HasIds(r)
  {
    if s == [] || x.id.value <= s[0].id.value then [x] + s
    else
      assert s == [s[0]] + s[1..];
      [s[0]] + InsertById(x, s[1..])
  }

  /** Every id in the insertion is at least any common lower bound of `x` and `s`. */
  lemma {:induction false} InsertByIdBound(x: Tarefa, s: seq<Tarefa>, b: int)
    requires x.id.Some? && HasIds(s)
    requires b <= x.id.value && forall i :: 0 <= i < |s| ==> b <= s[i].id.value
    ensures forall i :: 0 <= i < |InsertById(x, s)| ==> b <= InsertById(x, s)[i].id.value
  {
    if s != [] && x.id.value > s[0].id.value {
      InsertByIdBound(x, s[1..], b);
      assert InsertById(x, s) == [s[0]] + InsertById(x, s[1..]);
    }
  }

  /** Inserting into an ordered list keeps it ordered. */
  lemma {:induction false} InsertByIdSorted(x: Tarefa, s: seq<Tarefa>)
    requires x.id.Some? && HasIds(s) && SortedById(s)
    ensures SortedById(InsertById(x, s))
  {
    if s != [] && x.id.value > s[0].id.value {
      InsertByIdSorted(x, s[1..]);
      assert forall i :: 0 <= i < |s[1..]| ==> s[0].id.value <= s[1..][i].id.value by {
        forall i | 0 <= i < |s[1..]| ensures s[0].id.value <= s[1..][i].id.value {
          assert s[1..][i] == s[i + 1];
          assert 0 < i + 1 < |s|;
        }
      }
      InsertByIdBound(x, s[1..], s[0].id.value);
      var tail := InsertById(x, s[1..]);
      var r := InsertById(x, s);
      assert r == [s[0]] + tail;
      forall i, j | 0 <= i < j < |r| ensures r[i].id.value <= r[j].id.value {
        assert r[j] == tail[j - 1];
        if i > 0 {
          assert r[i] == tail[i - 1];
          assert SortedById(tail);
          assert tail[i - 1].id.value <= tail[j - 1].id.value;
        } else {
          assert r[i] == s[0];
          assert s[0].id.value <= tail[j - 1].id.value;
        }
      }
    }
  }

  /**
   * `list.sort` on the `id` key: a permutation of the input, ordered by id.
   * (Python's sort is stable; ids in the store are distinct, so stability
   * never shows.)
   */
  function SortById(s: seq<Tarefa>): (r: seq<Tarefa>)
    requires HasIds(s)
    ensures multiset(r) == multiset(s)
    ensures HasIds(r) && SortedById(r)
  {
    if s == [] then []
    else
      assert s == [s[0]] + s[1..];
      InsertByIdSorted(s[0], SortById(s[1..]));
      InsertById(s[0], SortById(s[1..]))
  }

  /** Inserting a task whose id is new into a strictly ordered list keeps it strictly ordered. */
  lemma {:induction false} InsertByIdStrict(x: Tarefa, s: seq<Tarefa>)
    requires x.id.Some? && HasIds(s) && StrictlySortedById(s)
    requires forall i :: 0 <= i < |s| ==> s[i].id != x.id
    ensures StrictlySortedById(InsertById(x, s))
  {
    if s != [] && x.id.value > s[0].id.value {
      InsertByIdStrict(x, s[1..]);
      var r := InsertById(x, s);
      assert r == [s[0]] + InsertById(x, s[1..]);
      forall t | t in InsertById(x, s[1..])
        ensures s[0].id.value < t.id.value
      {
        assert t in multiset(InsertById(x, s[1..]));
        if t != x {
          assert t in multiset(s[1..]);
          var k :| 1 <= k < |s| && s[k] == t;
        }
      }
    }
  }

  /** With distinct ids, sorting by id orders strictly. */
  lemma {:induction false} SortByIdStrict(s: seq<Tarefa>)
    requires HasIds(s) && DistinctIds(s)
    ensures StrictlySortedById(SortById(s))
  {
    if s != [] {
      var rest := SortById(s[1..]);
      SortByIdStrict(s[1..]);
      forall i | 0 <= i < |rest|
        ensures rest[i].id != s[0].id
      {
        assert rest[i] in multiset(s[1..]);
        var k :| 1 <= k < |s| && s[k] == rest[i];
      }
      InsertByIdStrict(s[0], rest);
    }
  }

  /** A non-empty set of keys has an element to take next. */
  lemma NonEmptyHasElement(s: set<int>)
    requires s != {}
    ensures exists k :: k in s
  {
    if forall k :: k !in s {
      assert false;
    }
  }

  /** Every task is stored under its own id. */
  ghost predicate IdsMatchKeys(m: map<int, Tarefa>) {
    forall id :: id in m ==> m[id].id == Some(id)
  }

  /** `lista` holds the tasks stored under the keys `vistas`, each once. */
  ghost predicate Gathered(m: map<int, Tarefa>, lista: seq<Tarefa>, vistas: set<int>) {
    && vistas <= m.Keys
    && |lista| == |vistas|
    && (forall i :: 0 <= i < |lista| ==> lista[i].id.Some? && lista[i].id.value in vistas && m[lista[i].id.value] == lista[i])
    && (forall id :: id in vistas ==> m[id] in lista)
    && DistinctIds(lista)
  }

  lemma GatherStep(m: map<int, Tarefa>, lista: seq<Tarefa>, vistas: set<int>, k: int)
    requires IdsMatchKeys(m) && Gathered(m, lista, vistas)
    requires k in m && k !in vistas
    ensures Gathered(m, lista + [m[k]], vistas + {k})
  {
  }

  /**
   * `lista` is the answer to GET /tarefas for the store `m`: each stored task
   * once (as many entries as keys, every stored task present, nothing else),
   * in strictly increasing id order.
   */
  ghost predicate IsListing(m: map<int, Tarefa>, lista: seq<Tarefa>) {
    && |lista| == |m|
    && (forall id :: id in m ==> m[id] in lista)
    && (forall t :: t in lista ==> t.id.Some? && t.id.value in m && m[t.id.value] == t)
    && HasIds(lista) && StrictlySortedById(lista)
  }

  /** Sorting everything gathered gives each stored task once, in increasing id order. */
  lemma GatheredSorted(m: map<int, Tarefa>, lista: seq<Tarefa>)
    requires Gathered(m, lista, m.Keys)
    ensures HasIds(lista) && IsListing(m, SortById(lista))
  {
    SortByIdStrict(lista);
    var r := SortById(lista);
    forall t | t in r
      ensures t.id.Some? && t.id.value in m && m[t.id.value] == t
    {
      assert t in multiset(lista);
    }
    forall id | id in m
      ensures m[id] in r
    {
      assert m[id] in multiset(lista);
    }
    assert |r| == |multiset(r)| == |multiset(lista)| == |lista|;
  }

  /**
   * The store: `tarefas[id]` is the task saved under `Key(id)`, and
   * `contador` is the value of `contador_tarefas` (0 while the key is absent,
   * which is where Redis `INCR` starts from).
   */
  class Store {
    var tarefas: map<int, Tarefa>
    var contador: int

    /**
     * Kept by every handler: each stored task carries its own id, and every
     * id was handed out by the counter, so the next id is always free.
     */
    ghost predicate Valid()
      reads this
    {
      && contador >= 0
      && (forall id :: id in tarefas ==> 1 <= id <= contador)
      && IdsMatchKeys(tarefas)
    }

    constructor ()
      ensures Valid() && tarefas == map[] && contador == 0
    {
      tarefas := map[];
      contador := 0;
    }

    /** GET /tarefas: every stored task exactly once, in increasing id order. */
    method ListarTarefas() returns (lista: seq<Tarefa>)
      requires Valid()
      ensures IsListing(tarefas, lista)
    {
      var chaves := tarefas.Keys;
      var tarefasLidas: seq<Tarefa> := [];
      ghost var vistas: set<int> := {};
      while chaves != {}
        invariant chaves !! vistas && chaves + vistas == tarefas.Keys
        invariant Gathered(tarefas, tarefasLidas, vistas)
        decreases chaves
      {
        NonEmptyHasElement(chaves);
        var chave :| chave in chaves;
        var dados := tarefas[chave];
        GatherStep(tarefas, tarefasLidas, vistas, chave);
        tarefasLidas := tarefasLidas + [dados];
        chaves := chaves - {chave};
        vistas := vistas + {chave};
      }
      GatheredSorted(tarefas, tarefasLidas);
      lista := SortById(tarefasLidas);
    }

    /** POST /tarefas: the counter's next value becomes the task's id, whatever id the client sent. */
    method CriarTarefa(tarefa: Tarefa) returns (criada: Tarefa)
      requires Valid()
      modifies this
      ensures Valid()
      ensures contador == old(contador) + 1
      ensures contador !in old(tarefas)
      ensures criada == tarefa.(id := Some(contador))
      ensures tarefas == old(tarefas)[contador := criada]
    {
      contador := contador + 1;
      var novoId := contador;
      criada := tarefa.(id := Some(novoId));
      tarefas := tarefas[novoId := criada];
    }

    /** PUT /tarefas/{id}: 404 for a missing task, otherwise that one task is replaced. */
    method AtualizarTarefa(tarefaId: int, tarefa: Tarefa) returns (reply: Reply<Tarefa>)
      requires Valid()
      modifies this
      ensures Valid()
      ensures contador == old(contador)
      ensures tarefaId !in old(tarefas) ==> reply == NotFound(NotFoundDetail) && tarefas == old(tarefas)
      ensures tarefaId in old(tarefas) ==>
        && reply == Ok(tarefa.(id := Some(tarefaId)))
        && tarefas == old(tarefas)[tarefaId := tarefa.(id := Some(tarefaId))]
    {
      if tarefaId !in tarefas {
        return NotFound(NotFoundDetail);
      }
      var atualizada := tarefa.(id := Some(tarefaId));
      tarefas := tarefas[tarefaId := atualizada];
      reply := Ok(atualizada);
    }

    /** DELETE /tarefas/{id}: 404 for a missing task, otherwise exactly that task is removed. */
    method DeletarTarefa(tarefaId: int) returns (reply: Reply<string>)
      requires Valid()
      modifies this
      ensures Valid()
      ensures contador == old(contador)
      ensures tarefaId !in old(tarefas) ==> reply == NotFound(NotFoundDetail) && tarefas == old(tarefas)
      ensures tarefaId in old(tarefas) ==> reply == Ok(DeletedMessage) && tarefas == old(tarefas) - {tarefaId}
    {
      if tarefaId !in tarefas {
        return NotFound(NotFoundDetail);
      }
      tarefas := tarefas - {tarefaId};
      reply := Ok(DeletedMessage);
    }
  }
}
