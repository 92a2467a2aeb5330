/** Task ("todo") engine (js/todo.js): date-scoped tasks with a completion
    flag, and the HTML escaper the task and idea lists use. */
module Todo {
  import opened Wrappers
  import Seqs

  datatype Todo = Todo(id: string, text: string, date: string, completed: bool, createdAt: string)

  /** `getTodosByDate`: the todos whose date string equals `date`, in insertion order. */
  function TodosByDate(todos: seq<Todo>, date: string): (r: seq<Todo>)
    ensures Seqs.Subsequence(r, todos)
    ensures forall j :: 0 <= j < |r| ==> r[j].date == date
    ensures forall j :: 0 <= j < |todos| && todos[j].date == date ==> todos[j] in r
    ensures forall x :: multiset(r)[x] == if x.date == date then multiset(todos)[x] else 0
  {
    var keep := (t: Todo) => t.date == date;
    Seqs.FilterCounts(keep, todos);
    Seqs.Filter(keep, todos)
  }

  /** The todo `addTodo` appends: not completed. */
  function NewTodo(id: string, text: string, date: string, createdAt: string): (t: Todo)
    ensures !t.completed
    ensures t.id == id && t.text == text && t.date == date && t.createdAt == createdAt
  {
    Todo(id, text, date, false, createdAt)
  }

  /** A todo appended for `date` is the last one listed for that date. */
  lemma AddedTodoListedLast(todos: seq<Todo>, t: Todo)
    ensures TodosByDate(todos + [t], t.date) == TodosByDate(todos, t.date) + [t]
  {
    var p := (x: Todo) => x.date == t.date;
    Seqs.FilterAppend(p, todos, [t]);
    assert [t][1..] == [];
  }

  /** Index of the todo `todos.find(t => t.id === todoId)` finds. */
  function FindTodo(todos: seq<Todo>, todoId: string): (r: Option<nat>)
    ensures r.Some? ==> r.value < |todos| && todos[r.value].id == todoId
    ensures r.Some? ==> forall j :: 0 <= j < r.value ==> todos[j].id != todoId
    ensures r.None? <==> forall j :: 0 <= j < |todos| ==> todos[j].id != todoId
  {
    Seqs.FindFirst((t: Todo) => t.id == todoId, todos)
  }

  /** `toggleTodo`: `completed` flipped on the todo found by id, nothing else
      changed; a missing id changes nothing. */
  function Toggled(todos: seq<Todo>, todoId: string): (r: seq<Todo>)
    ensures |r| == |todos|
    ensures match FindTodo(todos, todoId)
      case None => r == todos
      case Some(i) => r[i] == todos[i].(completed := !todos[i].completed) &&
                      forall j :: 0 <= j < |todos| && j != i ==> r[j] == todos[j]
  {
    Seqs.UpdateFirst((t: Todo) => t.id == todoId, (t: Todo) => t.(completed := !t.completed), todos)
  }

  /** Toggling the same todo twice restores the list. */
  lemma ToggleTwice(todos: seq<Todo>, todoId: string)
    ensures Toggled(Toggled(todos, todoId), todoId) == todos
  {
    var once := Toggled(todos, todoId);
    assert forall j :: 0 <= j < |todos| ==> once[j].id == todos[j].id;
    assert FindTodo(once, todoId) == FindTodo(todos, todoId);
  }

  /** `deleteTodo`: the todos with that id removed, the rest kept in order. */
  function WithoutTodo(todos: seq<Todo>, todoId: string): (r: seq<Todo>)
    ensures Seqs.Subsequence(r, todos)
    ensures forall j :: 0 <= j < |r| ==> r[j].id != todoId
    ensures forall j :: 0 <= j < |todos| && todos[j].id != todoId ==> todos[j] in r
    ensures forall x :: multiset(r)[x] == if x.id != todoId then multiset(todos)[x] else 0
  {
    var keep := (t: Todo) => t.id != todoId;
    Seqs.FilterCounts(keep, todos);
    Seqs.Filter(keep, todos)
  }

  /** The five characters the escaper replaces. */
  predicate IsSpecial(c: char) {
    c == '&' || c == '<' || c == '>' || c == '"' || c == '\''
  }

  /** The replacement of one character: its entity when special, itself otherwise. */
  function EscapeChar(c: char): (r: string)
    ensures IsSpecial(c) ==> |r| > 1 && r[0] == '&'
    ensures !IsSpecial(c) ==> r == [c]
    ensures forall i :: 0 <= i < |r| ==> r[i] != '<' && r[i] != '>' && r[i] != '"' && r[i] != '\''
  {
    match c
    case '&' => "&amp;"
    case '<' => "&lt;"
    case '>' => "&gt;"
    case '"' => "&quot;"
    case '\'' => "&#039;"
    case _ => [c]
  }

  /** `str.replace(/[&<>"']/g, ...)`: every character replaced independently. */
  function Escaped(s: string): (r: string)
    ensures forall i :: 0 <= i < |r| ==> r[i] != '<' && r[i] != '>' && r[i] != '"' && r[i] != '\''
    ensures |r| >= |s|
  {
    if |s| == 0 then "" else EscapeChar(s[0]) + Escaped(s[1..])
  }

  /** `escapeHtml`: '' for a missing (null/undefined) or empty string. */
  function EscapeHtml(str: Option<string>): (r: string)
    ensures str.None? || str == Some("") ==> r == ""
    ensures forall i :: 0 <= i < |r| ==> r[i] != '<' && r[i] != '>' && r[i] != '"' && r[i] != '\''
  {
    match str
    case None => ""
    case Some(s) => Escaped(s)
  }

  /** Text without special characters passes through unchanged. */
  lemma {:induction false} EscapedPlainText(s: string)
    requires forall i :: 0 <= i < |s| ==> !IsSpecial(s[i])
    ensures Escaped(s) == s
  {
    if |s| > 0 {
      EscapedPlainText(s[1..]);
    }
  }

  /** Decoding of the five entities, the inverse of the escaper. */
  function Unescaped(s: string): (r: string)
    decreases |s|
  {
    if |s| == 0 then ""
    else if s[0] != '&' then [s[0]] + Unescaped(s[1..])
    else if |s| >= 5 && s[..5] == "&amp;" then "&" + Unescaped(s[5..])
    else if |s| >= 4 && s[..4] == "&lt;" then "<" + Unescaped(s[4..])
    else if |s| >= 4 && s[..4] == "&gt;" then ">" + Unescaped(s[4..])
    else if |s| >= 6 && s[..6] == "&quot;" then "\"" + Unescaped(s[6..])
    else if |s| >= 6 && s[..6] == "&#039;" then "'" + Unescaped(s[6..])
    else [s[0]] + Unescaped(s[1..])
  }

  lemma UnescapedAfterEscapeChar(c: char, t: string)
    ensures Unescaped(EscapeChar(c) + t) == [c] + Unescaped(t)
  {
    var e := EscapeChar(c) + t;
    if c == '&' {
      assert e[..5] == "&amp;" && e[5..] == t;
    } else if c == '<' {
      assert e[1] == 'l' && e[..4] == "&lt;" && e[4..] == t;
    } else if c == '>' {
      assert e[1] == 'g' && e[..4] == "&gt;" && e[4..] == t;
    } else if c == '"' {
      assert e[1] == 'q' && e[..6] == "&quot;" && e[6..] == t;
    } else if c == '\'' {
      assert e[1] == '#' && e[..6] == "&#039;" && e[6..] == t;
    } else {
      assert e[0] == c && e[1..] == t;
    }
  }

  /** Escaping loses nothing: decoding the entities gives the text back. */
  lemma {:induction false} UnescapeEscaped(s: string)
    ensures Unescaped(Escaped(s)) == s
  {
    if |s| > 0 {
      UnescapedAfterEscapeChar(s[0], Escaped(s[1..]));
      UnescapeEscaped(s[1..]);
    }
  }
}
