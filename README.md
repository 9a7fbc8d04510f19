# Task manager: list projection, UI handlers and task store

This project models the core of a small task manager ("tarefas"). It has two parts:

- **The web client's component** (`projeto_redis_crud/frontend/src/App.js`). After every fetch, the list the backend returns is normalised. Each record gets a numeric id: a direct `id` wins, and otherwise the id is the second `:`-piece of its `key`. The list is then sorted by status bucket (`Em Progresso`, then `Pendente`, then `Concluída`) and, within a bucket, by id from high to low. Around this sit the event handlers `limparForm`, `criarTarefa`, `iniciarEdicao`, `salvarEdicao`, `deletarTarefa` and `toggleConcluida`. They change the component's state: list, title, description, status, edit target and loading flag.
- **The backend's task store** (`projeto_redis_crud/backend/main.py`). Tasks are kept one per key `tarefa:<id>`, and the counter `contador_tarefas` hands out ids. The four handlers `listar_tarefas`, `criar_tarefa`, `atualizar_tarefa` and `deletar_tarefa` read and change the store.

Modules:

- `Wrappers`: `Option`.
- `Decimal`: Python's `str` on integers and the value of a digit string. `str` is proved injective.
- `JsText`: the JavaScript primitives the client uses: `trim`, `split`/`join` (proved mutually inverse), and `Number(string)` (StringToNumber, section 7.1.4.1.1 of ECMA-262), restricted to integers and NaN.
- `TaskStore`: the backend.
  - Class `Store` holds `tarefas: map<int, Tarefa>` (the task under `Key(id)`) and `contador: int`.
  - `Valid()` is the invariant every handler keeps: each stored task carries its own id, and every id lies between 1 and the counter. So the next id handed out is always free.
- `TaskList`: the client's normalise-and-sort projection.
  - The sort is a stable insertion sort. It is proved ordered, a permutation of its input, stable within each rank, and the identity on an already ordered list.
- `AppState`: class `App`, with one method per handler.
  - Backend answers are parameters: `Outcome` for the list fetch, `bool` for whether a write succeeded, and `bool` for the delete confirmation.
  - Each handler returns the sequence of backend calls it makes.

Two choices where the source's comparator returns NaN and so leaves the order undefined:

- **Unknown statuses.** A status outside the three known ones has a priority that is not a number: `undefined`, or, for a name such as `toString` or `constructor`, the member `prioridade` inherits from `Object.prototype`. NaN arises only when such a priority meets a known status, or meets a different non-number priority. Two records whose priorities are the same non-number value are compared by id, as in any bucket. The model puts all unknown statuses in a fourth bucket after the known ones.
- **NaN ids.** An id that is NaN (no usable `id` or `key`) makes `b.id - a.id` NaN when it is compared with a record of the same priority. The model lists NaN ids after every numeric id in their bucket.

Wherever the comparator returns a number, the model's order agrees with it (`TaskList.ComparatorAgrees`). So the order is exactly the one the source's stable sort produces on lists where the comparator never returns NaN: for instance, lists with integer ids whose statuses are all known, or all unknown and looking up the same value.

Behaviours of the source worth noting:

- A failed list fetch is only logged (`console.error`), with no user notice.
- The key fallback uses `Number`, not an integer parse, so an empty piece (`"tarefa:"`) gives 0 and surrounding white space is ignored.
- The only check `salvarEdicao` makes is for an edit target; it does not check for a blank title.

## Model

| member | source | states |
|---|---|---|
| `Decimal.Show` | projeto_redis_crud/backend/main.py:41 | `str(n)` of an integer: a minus sign for negative numbers, then digits only |
| `Decimal.ShowInjective` | projeto_redis_crud/backend/main.py:41 | distinct ids are written as distinct strings |
| `Decimal.DigitsRoundTrip` | projeto_redis_crud/backend/main.py:41 | reading back the digits written for `n` gives `n` |
| `JsText.Trim` | projeto_redis_crud/frontend/src/App.js:59 | `trim()` keeps no white space at either end; it is empty exactly when the title is blank, and a string with no white space at either end is unchanged |
| `JsText.TrimStart` | projeto_redis_crud/frontend/src/App.js:59 | the leading white space removed is blank and the rest is a suffix |
| `JsText.TrimEnd` | projeto_redis_crud/frontend/src/App.js:59 | the trailing white space removed is blank and the rest is a prefix |
| `JsText.Split` | projeto_redis_crud/frontend/src/App.js:23 | `split(":")` gives at least one piece and no piece contains the separator |
| `JsText.JoinSplit` | projeto_redis_crud/frontend/src/App.js:23 | joining the pieces of a split gives the original key back |
| `JsText.SplitJoin` | projeto_redis_crud/frontend/src/App.js:23 | splitting joined separator-free pieces gives the pieces back |
| `JsText.SignedDecimal` | projeto_redis_crud/frontend/src/App.js:24 | a digit string reads as its decimal value, after `-` as its negation and after `+` as itself; there is a value exactly when the string is such a literal |
| `JsText.SplitWithoutSep` | projeto_redis_crud/frontend/src/App.js:23 | a key without `:` splits into itself alone, so it has no second piece |
| `JsText.TrimWindow` | projeto_redis_crud/frontend/src/App.js:24 | what `trim` keeps is the part between the leading and trailing white space, whenever that part starts and ends with something else |
| `JsText.TrimExample` | projeto_redis_crud/frontend/src/App.js:24 | `" +42\n".trim()` is `"+42"` |
| `JsText.SignedExample` | projeto_redis_crud/frontend/src/App.js:24 | `"-7"` reads as -7 and `"+42"` as 42 |
| `JsText.StringToNumber` | projeto_redis_crud/frontend/src/App.js:24 | `Number` of a blank string is 0; otherwise the result is a number exactly when the trimmed string is an optionally signed decimal literal |
| `JsText.StringToNumberWindows` | projeto_redis_crud/frontend/src/App.js:24 | a string made of white space, a signed decimal literal and white space reads as the literal's value; the result is NaN exactly when the string is not blank and has no such split |
| `JsText.NumberExample` | projeto_redis_crud/frontend/src/App.js:24 | `Number(" +42\n")` is 42 |
| `JsText.WordIsNaN` | projeto_redis_crud/frontend/src/App.js:24 | `Number("abc")` is NaN |
| `JsText.SpacedDigitsAreNaN` | projeto_redis_crud/frontend/src/App.js:24 | `Number("1 2")` is NaN, not 1 |
| `JsText.NumberOfShow` | projeto_redis_crud/frontend/src/App.js:24 | `Number` reads back exactly the integer Python's `str` wrote |
| `TaskStore.Key` | projeto_redis_crud/backend/main.py:27 | every task key starts with `tarefa:`, so it matches the `tarefa:*` pattern |
| `TaskStore.KeyInjective` | projeto_redis_crud/backend/main.py:46 | two ids share a key only if they are equal, and no task key is the counter's key |
| `TaskStore.SortById` | projeto_redis_crud/backend/main.py:33 | `sort(key=id)` returns a permutation of the list in non-decreasing id order |
| `TaskStore.SortByIdStrict` | projeto_redis_crud/backend/main.py:33 | with distinct ids, the sorted list is strictly increasing by id |
| `TaskStore.GatheredSorted` | projeto_redis_crud/backend/main.py:29-33 | once every key has been read, sorting gives each stored task exactly once in increasing id order |
| `TaskStore.Store.constructor` | projeto_redis_crud/backend/main.py:17 | an empty store whose counter is 0 satisfies the store invariant |
| `TaskStore.Store.ListarTarefas` | projeto_redis_crud/backend/main.py:25-34 | returns as many tasks as are stored; every stored task is returned; each returned task is the one stored under its id; ids strictly increase |
| `TaskStore.Store.CriarTarefa` | projeto_redis_crud/backend/main.py:36-42 | the counter grows by exactly 1; the new id was not in use; the client's id is replaced by the new id; only the entry for that id is added; the invariant is kept |
| `TaskStore.Store.AtualizarTarefa` | projeto_redis_crud/backend/main.py:44-51 | a missing id answers 404 with store and counter unchanged; otherwise only that entry is replaced, its id forced to the path id; the counter is untouched |
| `TaskStore.Store.DeletarTarefa` | projeto_redis_crud/backend/main.py:53-59 | a missing id answers 404 with the store unchanged; otherwise exactly that entry is removed and the counter is untouched |
| `TaskList.ToNumber` | projeto_redis_crud/frontend/src/App.js:24 | `Number(id)`: a numeric id is itself, a blank string is 0, and any other string is a number exactly when its trimmed form is a signed decimal literal |
| `TaskList.ResolveId` | projeto_redis_crud/frontend/src/App.js:23-24 | a direct numeric id is kept, a text id goes through `Number`, and with no id a key that is absent or has no `:` gives NaN |
| `TaskList.Normalise` | projeto_redis_crud/frontend/src/App.js:22-25 | a direct numeric id is kept, a text id goes through `Number`, a record with no id and a key that is absent or has no `:` (an empty key included) gets NaN, and every other field is unchanged |
| `TaskList.KeyFallback` | projeto_redis_crud/frontend/src/App.js:23 | a record without id whose key is `<ns>:<seg>`, with or without further `:`-pieces after it, gets the number `seg` spells |
| `TaskList.ServerKeyRoundTrip` | projeto_redis_crud/frontend/src/App.js:23 | a record known only by the server's key `tarefa:<n>` gets the id `n` |
| `TaskList.Priority` | projeto_redis_crud/frontend/src/App.js:27-31 | buckets lie in 1..4, and a status gets bucket 4 exactly when it is none of the three known ones |
| `TaskList.KnownPriorities` | projeto_redis_crud/frontend/src/App.js:27-31 | `Em Progresso` is 1, `Pendente` is 2, `Concluída` is 3 |
| `TaskList.IdAtLeast` | projeto_redis_crud/frontend/src/App.js:35 | integer ids in descending order; a NaN id comes after every integer id and only ties with another NaN id |
| `TaskList.Precedes` | projeto_redis_crud/frontend/src/App.js:26-36 | a lower bucket first; within one bucket the higher id first, NaN ids last |
| `TaskList.Lookup` | projeto_redis_crud/frontend/src/App.js:27-33 | `prioridade[status]` is a number exactly for the three known statuses, and then it is their bucket |
| `TaskList.Comparator` | projeto_redis_crud/frontend/src/App.js:32-35 | the comparator returns NaN only when a status is unknown or an id is NaN |
| `TaskList.ComparatorAgrees` | projeto_redis_crud/frontend/src/App.js:26-36 | wherever the comparator returns a number, `a` may come first exactly when that number is not positive; two unknown statuses that look up the same value are compared by id |
| `TaskList.PrecedesTotal` | projeto_redis_crud/frontend/src/App.js:32-35 | the comparator's order relates any two records, and holds between records of equal rank |
| `TaskList.Insert` | projeto_redis_crud/frontend/src/App.js:26-36 | insertion adds exactly the one record |
| `TaskList.InsertSorted` | projeto_redis_crud/frontend/src/App.js:26-36 | inserting into an ordered list keeps it ordered |
| `TaskList.SortForDisplay` | projeto_redis_crud/frontend/src/App.js:26-36 | the sort returns a permutation of its input, ordered by bucket and then by id from high to low |
| `TaskList.SortStable` | projeto_redis_crud/frontend/src/App.js:26-36 | the sort keeps the records of each rank in their input order |
| `TaskList.SortSorted` | projeto_redis_crud/frontend/src/App.js:26-36 | an already ordered list is returned unchanged |
| `TaskList.NormaliseAll` | projeto_redis_crud/frontend/src/App.js:22-25 | `map` normalises each record at its own position |
| `TaskList.Project` | projeto_redis_crud/frontend/src/App.js:21-36 | same length as the response; a permutation of the normalised records; adjacent buckets never decrease; within a bucket ids never increase (a NaN id only after numeric ones) |
| `TaskList.ProjectStable` | projeto_redis_crud/frontend/src/App.js:26-36 | records of equal status and id keep their response order in the projected list |
| `TaskList.AsRaw` | projeto_redis_crud/frontend/src/App.js:24 | normalising a record that carries its numeric id gives the task back |
| `TaskList.ProjectIdempotent` | projeto_redis_crud/frontend/src/App.js:21-36 | projecting an already projected list changes nothing |
| `TaskList.ThreeBuckets` | projeto_redis_crud/frontend/src/App.js:32-33 | one record per known bucket, given in reverse, comes out in bucket order |
| `TaskList.StatusOrderExample` | projeto_redis_crud/frontend/src/App.js:26-36 | done id 1, pending id 2 and in-progress id 3 are listed as 3, 2, 1 |
| `TaskList.SameStatusExample` | projeto_redis_crud/frontend/src/App.js:35 | two pending tasks with ids 5 and 9 are listed as 9, 5 |
| `AppState.NextStatus` | projeto_redis_crud/frontend/src/App.js:102 | the status sent is always `Pendente` or `Concluída`, and it is `Pendente` exactly when the task was `Concluída` |
| `AppState.ToggleTwice` | projeto_redis_crud/frontend/src/App.js:102 | toggling twice restores the status exactly for `Pendente` and `Concluída`; any other status comes back `Pendente` |
| `AppState.Falsy` | projeto_redis_crud/frontend/src/App.js:79 | `!editandoId` holds for no target, and for an integer target exactly when it is 0 |
| `AppState.Loaded` | projeto_redis_crud/frontend/src/App.js:38-41 | a failed fetch shows an empty list, and a successful one shows as many records as it returned |
| `AppState.App.constructor` | projeto_redis_crud/frontend/src/App.js:10-15 | empty list, cleared form (`""`, `""`, `Pendente`, no target), not loading |
| `AppState.App.CarregarTarefas` | projeto_redis_crud/frontend/src/App.js:17-45 | one GET; the list becomes the projection or, on failure, empty; `loading` ends false; the form is unchanged |
| `AppState.App.LimparForm` | projeto_redis_crud/frontend/src/App.js:51-56 | the form becomes (`""`, `""`, `Pendente`, none) whatever it held, so the reset is idempotent; list and loading flag unchanged |
| `AppState.App.CriarTarefa` | projeto_redis_crud/frontend/src/App.js:58-68 | a blank title makes no call and changes nothing; otherwise it posts the form's fields; a failed post changes nothing; a successful one reloads and clears the form |
| `AppState.App.IniciarEdicao` | projeto_redis_crud/frontend/src/App.js:70-76 | the form takes the task's id, title, description and status, with `""`, `""` and `Pendente` for missing fields; the list is unchanged |
| `AppState.App.SalvarEdicao` | projeto_redis_crud/frontend/src/App.js:78-88 | with no target (null, 0 or NaN) it makes no call and changes nothing; otherwise it puts the form's fields to the target; a failed put changes nothing; a successful one reloads and clears the form |
| `AppState.App.DeletarTarefa` | projeto_redis_crud/frontend/src/App.js:90-99 | a declined confirmation makes no call; otherwise it sends one DELETE, and a successful one is followed by a reload; the form is never touched |
| `AppState.App.ToggleConcluida` | projeto_redis_crud/frontend/src/App.js:101-110 | it puts the whole task back with the next status; a successful put is followed by a reload; the form is never touched |

## Left out

- Rendering: the JSX, CSS classes and badges (`App.js` lines 112-213) are presentation only.
- HTTP transport: axios, the base URL and `async`/`await` scheduling are not modelled. Each backend call is an abstract outcome passed as a parameter. A fetch overtaken by a later one (the stale-response race) is not modelled either.
- Mount-time load: the `useEffect` load at mount is the constructor followed by one `CarregarTarefas`. It is not a separate member.
- Browser side effects: `window.confirm` is a boolean parameter. `alert`, `console.error` and `window.scrollTo` have no effect on the modelled state and are left out.
- Payload shape: the model's payload is always a sequence of records whose `id` is a number or a string and whose `key` is a string. Three cases of the source fall outside it:
  - A list payload that is not an array makes `.map` throw. The catch at `App.js` lines 39-41 then shows an empty list.
  - A `null` element, or a record without id whose `key` is truthy but not a string (such as `{key: 5}`), makes the `.map` callback throw. The catch then empties the whole list, not just that record.
  - An id that is a boolean, an array, an object or a fraction goes through `Number` to 1 or 0, to 0, a number or NaN, to NaN, or to a non-integer. `IdValue` holds only numbers and strings, and `JsNumber` only integers and NaN.
- `JsText.StringToNumber`: every form other than an optionally signed decimal integer reads as NaN. JavaScript reads several of them as numbers: hexadecimal (`"0x1A"` is 26), binary (`"0b101"` is 5), octal (`"0o17"` is 15), exponent (`"1e3"` is 1000), fractional (`"2.0"` is 2, `"2.5"` is 2.5) and `"Infinity"`. Precision loss for ids above 2^53 is not modelled either.
- Duplicate lookup: `t["id"]` reads the same field as `t.id`, so it is modelled once.
- Redis and JSON: the connection, the `KEYS` glob matcher and JSON (de)serialisation are abstracted to a map from id to task. `Key` gives the key each entry stands for, and `KeyInjective` shows the abstraction loses nothing.
- The `if dados` guard of `listar_tarefas`: stored JSON is never empty, so the guard only matters when a key is deleted between `KEYS` and `GET`. That is a concurrent change, which is not modelled.
- Pydantic validation: missing or mistyped fields, and the default `status = "Pendente"`, are handled before a handler runs. Handlers receive an already built `Tarefa`.
- FastAPI routing and the CORS middleware (`main.py` lines 7-15) are not modelled.
- `TaskStore.Store.CriarTarefa`: does not model the error Redis `INCR` raises once the counter passes the largest signed 64-bit integer.
- `TaskStore.Store.Valid`: assumes only these four handlers write the store.
