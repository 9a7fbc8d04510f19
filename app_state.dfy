/**
 * The client component's state and its event handlers. Each handler is a
 * method of `App` that changes the state fields as the component's setters
 * do. The backend's answers are parameters: `Outcome` for the list fetch and
 * `bool` for a write call's success. Each handler returns the backend calls
 * it makes, in order, so "makes no call" is `calls == []`.
 */
module AppState {
  import opened Wrappers
  import opened JsText
  import opened TaskList

  /** The answer to a backend call: its payload, or an error (network failure or non-2xx status). */
  datatype Outcome<T> = Success(value: T) | Failure

  /** The body of a write: the form's three fields, or a whole task record. */
  datatype Body = Fields(titulo: string, descricao: string, status: string) | Record(task: Task)

  /** A request to the backend: `GET /tarefas`, `POST /tarefas`, `PUT /tarefas/{id}`, `DELETE /tarefas/{id}`. */
  datatype Call = Get | Post(body: Body) | Put(id: JsNumber, body: Body) | Delete(id: JsNumber)

  /** The edit form: title, description, selected status and the task being edited, if any. */
  datatype FormState = FormState(titulo: string, descricao: string, status: string, editandoId: Option<JsNumber>)

  /** The form as `limparForm` leaves it, which is also its initial state. */
  const ClearedForm: FormState := FormState("", "", Pendente, None)

  /** The status `toggleConcluida` sends: done becomes pending, anything else becomes done. */
  function NextStatus(status: Option<string>): (s: string)
    ensures s == Pendente || s == Concluida
    ensures s == Pendente <==> status == Some(Concluida)
  {
    if status == Some(Concluida) then Pendente else Concluida
  }

  /**
   * Toggling twice gives back the status exactly for pending and done tasks;
   * a task in progress (or with any other status) comes back pending.
   */
  lemma ToggleTwice(status: Option<string>)
    ensures Some(NextStatus(Some(NextStatus(status)))) == status <==> status == Some(Pendente) || status == Some(Concluida)
    ensures status != Some(Concluida) ==> NextStatus(Some(NextStatus(status))) == Pendente
  {
  }

  /** `!editandoId`: no target, or a target id of 0 or NaN. */
  predicate Falsy(id: Option<JsNumber>)
    ensures id.None? ==> Falsy(id)
    ensures id.Some? && id.value.Int? ==> (Falsy(id) <==> id.value.value == 0)
  {
    id == None || id == Some(NaN) || id == Some(Int(0))
  }

  /** The list `carregarTarefas` shows after a fetch: the projection, or nothing when the fetch failed. */
  function Loaded(resp: Outcome<seq<RawTask>>): (r: seq<Task>)
    ensures resp.Failure? ==> r == []
    ensures resp.Success? ==> |r| == |resp.value|
  {
    match resp
    case Success(data) => Project(data)
    case Failure => []
  }

  class App {
    var tarefas: seq<Task>
    var titulo: string
    var descricao: string
    var status: string
    var editandoId: Option<JsNumber>
    var loading: bool

    function Form(): (f: FormState)
      reads this
    {
      FormState(titulo, descricao, status, editandoId)
    }

    constructor ()
      ensures tarefas == [] && Form() == ClearedForm && !loading
    {
      tarefas := [];
      titulo, descricao, status, editandoId := "", "", Pendente, None;
      loading := false;
    }

    /**
     * `carregarTarefas`: fetch, then show the projected list, or an empty
     * list if the fetch failed; `loading` is false afterwards either way.
     */
    method CarregarTarefas(resp: Outcome<seq<RawTask>>) returns (calls: seq<Call>)
      modifies this
      ensures calls == [Get]
      ensures tarefas == Loaded(resp) && !loading
      ensures Form() == old(Form())
    {
      loading := true;
      calls := [Get];
      match resp {
        case Success(data) =>
          tarefas := Project(data);
        case Failure =>
          tarefas := [];
      }
      loading := false;
    }

    /** `limparForm`: the form is cleared whatever it held, so clearing twice is clearing once. */
    method LimparForm()
      modifies this
      ensures Form() == ClearedForm
      ensures tarefas == old(tarefas) && loading == old(loading)
    {
      titulo := "";
      descricao := "";
      status := Pendente;
      editandoId := None;
    }

    /**
     * `criarTarefa`: a blank title stops it before any call. Otherwise the
     * form's fields are posted; on success the list is reloaded and the form
     * cleared, on failure nothing changes.
     */
    method CriarTarefa(postOk: bool, resp: Outcome<seq<RawTask>>) returns (calls: seq<Call>)
      modifies this
      ensures IsBlank(old(titulo)) || !postOk ==>
        tarefas == old(tarefas) && Form() == old(Form()) && loading == old(loading)
      ensures IsBlank(old(titulo)) ==> calls == []
      ensures !IsBlank(old(titulo)) ==>
        && |calls| >= 1
        && calls[0] == Post(Fields(old(titulo), old(descricao), old(status)))
        && calls[1..] == (if postOk then [Get] else [])
      ensures !IsBlank(old(titulo)) && postOk ==>
        tarefas == Loaded(resp) && Form() == ClearedForm && !loading
    {
      if Trim(titulo) == [] {
        return [];
      }
      calls := [Post(Fields(titulo, descricao, status))];
      if !postOk {
        return;
      }
      var reload := CarregarTarefas(resp);
      calls := calls + reload;
      LimparForm();
    }

    /** `iniciarEdicao`: the form takes the task's id and fields, with defaults for missing ones. */
    method IniciarEdicao(t: Task)
      modifies this
      ensures Form() == FormState(t.titulo.GetOr(""), t.descricao.GetOr(""), t.status.GetOr(Pendente), Some(t.id))
      ensures tarefas == old(tarefas) && loading == old(loading)
    {
      editandoId := Some(t.id);
      titulo := t.titulo.GetOr("");
      descricao := t.descricao.GetOr("");
      status := t.status.GetOr(Pendente);
    }

    /**
     * `salvarEdicao`: without an edit target (null, 0 or NaN) nothing happens.
     * Otherwise the form's fields are put to that task; on success the list
     * is reloaded and the form cleared, on failure nothing changes.
     */
    method SalvarEdicao(putOk: bool, resp: Outcome<seq<RawTask>>) returns (calls: seq<Call>)
      modifies this
      ensures Falsy(old(editandoId)) || !putOk ==>
        tarefas == old(tarefas) && Form() == old(Form()) && loading == old(loading)
      ensures Falsy(old(editandoId)) ==> calls == []
      ensures !Falsy(old(editandoId)) ==>
        && |calls| >= 1
        && calls[0] == Put(old(editandoId).value, Fields(old(titulo), old(descricao), old(status)))
        && calls[1..] == (if putOk then [Get] else [])
      ensures !Falsy(old(editandoId)) && putOk ==>
        tarefas == Loaded(resp) && Form() == ClearedForm && !loading
    {
      if Falsy(editandoId) {
        return [];
      }
      calls := [Put(editandoId.value, Fields(titulo, descricao, status))];
      if !putOk {
        return;
      }
      var reload := CarregarTarefas(resp);
      calls := calls + reload;
      LimparForm();
    }

    /**
     * `deletarTarefa`: a declined confirmation makes no call. Otherwise the
     * task is deleted and, on success, the list reloaded; the form is untouched.
     */
    method DeletarTarefa(id: JsNumber, confirmed: bool, deleteOk: bool, resp: Outcome<seq<RawTask>>)
      returns (calls: seq<Call>)
      modifies this
      ensures Form() == old(Form())
      ensures calls == (if !confirmed then [] else if !deleteOk then [Delete(id)] else [Delete(id), Get])
      ensures confirmed && deleteOk ==> tarefas == Loaded(resp) && !loading
      ensures !(confirmed && deleteOk) ==> tarefas == old(tarefas) && loading == old(loading)
    {
      if !confirmed {
        return [];
      }
      calls := [Delete(id)];
      if !deleteOk {
        return;
      }
      var reload := CarregarTarefas(resp);
      calls := calls + reload;
    }

    /**
     * `toggleConcluida`: puts the whole task back with the next status and,
     * on success, reloads the list; the form is untouched.
     */
    method ToggleConcluida(t: Task, putOk: bool, resp: Outcome<seq<RawTask>>) returns (calls: seq<Call>)
      modifies this
      ensures Form() == old(Form())
      ensures |calls| >= 1 && calls[0] == Put(t.id, Record(t.(status := Some(NextStatus(t.status)))))
      ensures calls[1..] == (if putOk then [Get] else [])
      ensures putOk ==> tarefas == Loaded(resp) && !loading
      ensures !putOk ==> tarefas == old(tarefas) && loading == old(loading)
    {
      var novoStatus := NextStatus(t.status);
      calls := [Put(t.id, Record(t.(status := Some(novoStatus))))];
      if !putOk {
        return;
      }
      var reload := CarregarTarefas(resp);
      calls := calls + reload;
    }
  }
}
