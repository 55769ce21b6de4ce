/**
 * The task list kept in the tasks file: the record `add_task` creates, the
 * hashtag-driven update of one field from an LLM answer, and the field merge
 * of the task editor.  Tasks are JSON objects, as in the file; the list is
 * the field `tasks` of a store object that the operations update in place.
 */
module Tasks {
  import opened Wrappers
  import opened Json

  const RecommendedSystemMessage := "Generate subtasks, test cases, acceptance criteria, and insights."

  /** The keys every task made by `add_task` has. */
  const TaskKeys: set<string> := {
    "title", "description", "subtasks", "completed", "acceptance_criteria", "test_cases",
    "uml_diagram", "ascii_diagram", "additional_info", "related_tasks", "recommended_llm_settings"}

  /** The settings `add_task` copies from the `llm_api` section of the configuration. */
  const SettingKeys: set<string> := {"temperature", "top_p", "top_k", "max_tokens"}

  /** The fields the task editor may change (`uml_diagram` is not among them). */
  const DetailKeys: seq<string> :=
    ["title", "description", "subtasks", "acceptance_criteria", "test_cases", "ascii_diagram", "additional_info"]

  predicate HasSettings(llmApi: Object)
  {
    forall k :: k in SettingKeys ==> k in llmApi
  }

  /** The record `add_task` appends: empty fields, not completed, and the configured LLM settings. */
  function NewTask(title: string, llmApi: Object): (task: Object)
    requires HasSettings(llmApi)
    ensures task.Keys == TaskKeys
    ensures task["title"] == JString(title) && task["completed"] == JBool(false)
    ensures task["description"] == task["uml_diagram"] == task["ascii_diagram"] == task["additional_info"] == JString("")
    ensures task["subtasks"] == task["acceptance_criteria"] == task["test_cases"] == task["related_tasks"] == JArray([])
    ensures forall k :: k in DetailKeys && k != "title" ==> !Truthy(task[k])
    ensures task["recommended_llm_settings"].JObject?
    ensures var settings := task["recommended_llm_settings"].fields;
            && settings.Keys == SettingKeys + {"system_message"}
            && (forall k :: k in SettingKeys ==> settings[k] == llmApi[k])
            && settings["system_message"] == JString(RecommendedSystemMessage)
  {
    map[
      "title" := JString(title),
      "description" := JString(""),
      "subtasks" := JArray([]),
      "completed" := JBool(false),
      "acceptance_criteria" := JArray([]),
      "test_cases" := JArray([]),
      "uml_diagram" := JString(""),
      "ascii_diagram" := JString(""),
      "additional_info" := JString(""),
      "related_tasks" := JArray([]),
      "recommended_llm_settings" := JObject(map[
        "temperature" := llmApi["temperature"],
        "top_p" := llmApi["top_p"],
        "top_k" := llmApi["top_k"],
        "max_tokens" := llmApi["max_tokens"],
        "system_message" := JString(RecommendedSystemMessage)])]
  }

  // ----- hashtag updates -----

  /**
   * What a hashtag updates: the task key, the value `get` falls back to, and
   * whether the answer must hold the key for anything to change.
   */
  datatype HashtagRule = HashtagRule(key: string, fallback: Json, onlyIfPresent: bool)

  function RuleFor(hashtag: string): Option<HashtagRule>
  {
    if hashtag == "#gentestcases" then Some(HashtagRule("test_cases", JArray([]), true))
    else if hashtag == "#gencriteria" then Some(HashtagRule("acceptance_criteria", JArray([]), true))
    else if hashtag == "#genuml" then Some(HashtagRule("uml_diagram", JString(""), true))
    else if hashtag == "#genascii" then Some(HashtagRule("ascii_diagram", JString(""), true))
    else if hashtag == "#addnotes" then Some(HashtagRule("additional_info", JString(""), false))
    else None
  }

  /**
   * The update of one task by an LLM answer `content` and its hashtag.  A
   * known hashtag changes at most its own field: the four `#gen...` tags copy
   * the answer's value when the answer has the key and otherwise change
   * nothing; `#addnotes` always sets `additional_info`, to `""` when the
   * answer lacks it.  No key is removed.
   */
  function ApplyHashtag(task: Object, content: Object, hashtag: string): (r: Object)
    ensures task.Keys <= r.Keys
    ensures RuleFor(hashtag).Some? ==>
              var key := RuleFor(hashtag).value.key;
              && (forall k :: k != key ==> (k in r <==> k in task))
              && (forall k :: k != key && k in task ==> r[k] == task[k])
              && (hashtag == "#addnotes" ==> key in r && r[key] == Get(content, key, JString("")))
              && (hashtag != "#addnotes" && key in content ==> key in r && r[key] == content[key])
              && (hashtag != "#addnotes" && key !in content ==> r == task)
  {
    match RuleFor(hashtag)
    case None => task
    case Some(rule) =>
      if rule.onlyIfPresent && rule.key !in content then task
      else task[rule.key := Get(content, rule.key, rule.fallback)]
  }

  /** An unknown hashtag changes nothing. */
  lemma UnknownHashtagChangesNothing(task: Object, content: Object, hashtag: string)
    requires hashtag !in {"#gentestcases", "#gencriteria", "#genuml", "#genascii", "#addnotes"}
    ensures ApplyHashtag(task, content, hashtag) == task
  {
  }

  /** Applying the same answer twice is applying it once. */
  lemma HashtagIdempotent(task: Object, content: Object, hashtag: string)
    ensures var once := ApplyHashtag(task, content, hashtag);
            ApplyHashtag(once, content, hashtag) == once
  {
    var once := ApplyHashtag(task, content, hashtag);
    if RuleFor(hashtag).Some? {
      var rule := RuleFor(hashtag).value;
      if !(rule.onlyIfPresent && rule.key !in content) {
        assert once[rule.key := Get(content, rule.key, rule.fallback)] == once;
      }
    }
  }

  // ----- the task editor -----

  predicate HasDetailKeys(task: Object)
  {
    forall i :: 0 <= i < |DetailKeys| ==> DetailKeys[i] in task
  }

  /** The seven assignments `task[k] = updated.get(k, task[k])`, in order. */
  function AssignDetails(task: Object, updates: Object, keys: seq<string>): (r: Object)
    requires forall i :: 0 <= i < |keys| ==> keys[i] in task
    ensures r.Keys == task.Keys
    decreases |keys|
  {
    if keys == [] then task
    else
      var k := keys[0];
      var next := task[k := Get(updates, k, task[k])];
      assert forall i :: 0 <= i < |keys[1..]| ==> keys[1..][i] == keys[i + 1];
      AssignDetails(next, updates, keys[1..])
  }

  function MergeDetails(task: Object, updates: Object): Object
    requires HasDetailKeys(task)
  {
    AssignDetails(task, updates, DetailKeys)
  }

  /** The merge as one map: each listed key takes the update's value when it has one. */
  function Merged(task: Object, updates: Object, keys: set<string>): Object
  {
    map k | k in task :: if k in keys && k in updates then updates[k] else task[k]
  }

  /** The order of the assignments does not matter: `AssignDetails` is `Merged`. */
  lemma {:induction false} AssignDetailsIsMerged(task: Object, updates: Object, keys: seq<string>)
    requires forall i :: 0 <= i < |keys| ==> keys[i] in task
    ensures AssignDetails(task, updates, keys) == Merged(task, updates, set i | 0 <= i < |keys| :: keys[i])
    decreases |keys|
  {
    var ks := set i | 0 <= i < |keys| :: keys[i];
    if keys == [] {
      assert Merged(task, updates, ks) == task;
    } else {
      var k := keys[0];
      var next := task[k := Get(updates, k, task[k])];
      var rest := keys[1..];
      assert forall i :: 0 <= i < |rest| ==> rest[i] == keys[i + 1];
      AssignDetailsIsMerged(next, updates, rest);
      var rs := set i | 0 <= i < |rest| :: rest[i];
      assert ks == rs + {k} by {
        forall x | x in ks ensures x in rs + {k} {
          var i :| 0 <= i < |keys| && keys[i] == x;
          if i > 0 { assert rest[i - 1] == x; }
        }
        forall x | x in rs ensures x in ks {
          var i :| 0 <= i < |rest| && rest[i] == x;
          assert keys[i + 1] == x;
        }
      }
      assert Merged(next, updates, rs) == Merged(task, updates, ks);
    }
  }

  function DetailSet(): set<string>
  {
    set i | 0 <= i < |DetailKeys| :: DetailKeys[i]
  }

  /**
   * The editor's merge: the seven detail fields take the sent value when one
   * is sent and keep theirs otherwise; every other field, `uml_diagram`
   * included, is unchanged, and no key is added or removed.
   */
  lemma MergeDetailsFields(task: Object, updates: Object)
    requires HasDetailKeys(task)
    ensures var r := MergeDetails(task, updates);
            && r.Keys == task.Keys
            && (forall k :: k in DetailSet() && k in updates ==> r[k] == updates[k])
            && (forall k :: k in task && (k !in DetailSet() || k !in updates) ==> r[k] == task[k])
            && (forall k :: k in task && k !in DetailSet() ==> r[k] == task[k])
  {
    AssignDetailsIsMerged(task, updates, DetailKeys);
    forall k | k in DetailSet() ensures k in task {
      var i :| 0 <= i < |DetailKeys| && DetailKeys[i] == k;
    }
  }

  /** Sending the same edit twice is sending it once, and an empty edit changes nothing. */
  lemma MergeDetailsIdempotent(task: Object, updates: Object)
    requires HasDetailKeys(task)
    ensures HasDetailKeys(MergeDetails(task, updates))
    ensures MergeDetails(MergeDetails(task, updates), updates) == MergeDetails(task, updates)
    ensures MergeDetails(task, map[]) == task
  {
    var ds := DetailSet();
    var once := MergeDetails(task, updates);
    AssignDetailsIsMerged(task, updates, DetailKeys);
    assert once == Merged(task, updates, ds);
    assert HasDetailKeys(once);
    AssignDetailsIsMerged(once, updates, DetailKeys);
    MergedIdempotent(task, updates, ds);
    AssignDetailsIsMerged(task, map[], DetailKeys);
    MergedEmpty(task, ds);
  }

  lemma MergedIdempotent(task: Object, updates: Object, keys: set<string>)
    ensures Merged(Merged(task, updates, keys), updates, keys) == Merged(task, updates, keys)
  {
  }

  lemma MergedEmpty(task: Object, keys: set<string>)
    ensures Merged(task, map[], keys) == task
  {
  }

  // ----- which task an id selects -----

  /** The task an id selects: the id must be a position in the list. */
  function TaskSlot(taskId: int, count: nat): (slot: Option<nat>)
    ensures slot.Some? <==> 0 <= taskId < count
    ensures slot.Some? ==> slot.value == taskId
  {
    if 0 <= taskId < count then Some(taskId as nat) else None
  }

  /** What Python makes of `if task_id < len(tasks): tasks[task_id]`. */
  datatype Lookup = Found(index: nat) | NotFound | IndexError

  function AsWrittenSlot(taskId: int, count: nat): (r: Lookup)
    ensures r.Found? ==> r.index < count
  {
    if taskId >= count then NotFound
    else if taskId >= 0 then Found(taskId as nat)
    else if count + taskId >= 0 then Found((count + taskId) as nat)
    else IndexError
  }

  /**
   * The guard `task_id < len(tasks)` lets negative ids through: with three
   * tasks, id -1 updates the last task, and id -4 raises `IndexError`, where
   * either should be "Task not found".
   */
  lemma NegativeIdSelectsFromEnd()
    ensures AsWrittenSlot(-1, 3) == Found(2) && TaskSlot(-1, 3) == None
    ensures AsWrittenSlot(-4, 3) == IndexError && TaskSlot(-4, 3) == None
  {
  }

  /** For ids that are positions, the guard as written and the corrected one agree. */
  lemma SlotsAgreeOnPositions(taskId: int, count: nat)
    requires taskId >= 0
    ensures TaskSlot(taskId, count).Some? <==> AsWrittenSlot(taskId, count).Found?
    ensures TaskSlot(taskId, count).Some? ==> TaskSlot(taskId, count).value == AsWrittenSlot(taskId, count).index
  {
  }

  // ----- the store -----

  /** The list in the tasks file, with the `llm_api` section new tasks copy settings from. */
  class TaskStore {
    var tasks: seq<Object>
    const llmApi: Object

    /** Every task has the fields the editor merges. */
    predicate Valid()
      reads this
    {
      forall i :: 0 <= i < |tasks| ==> HasDetailKeys(tasks[i])
    }

    constructor (tasks: seq<Object>, llmApi: Object)
      ensures this.tasks == tasks && this.llmApi == llmApi
    {
      this.tasks := tasks;
      this.llmApi := llmApi;
    }

    /** `add_task(task_name)`: the new record goes to the end of the list. */
    method AddTask(title: string) returns (task: Object)
      requires HasSettings(llmApi)
      modifies this
      ensures task == NewTask(title, llmApi)
      ensures tasks == old(tasks) + [task]
      ensures old(Valid()) ==> Valid()
    {
      task := NewTask(title, llmApi);
      tasks := tasks + [task];
      assert HasDetailKeys(task);
    }

    /**
     * `update_task_by_hashtag`: the task the id selects gets the hashtag's
     * update, and the updated task is returned; an id that selects no task
     * changes nothing and gives `None`.
     */
    method UpdateTaskByHashtag(taskId: int, content: Object, hashtag: string) returns (r: Option<Object>)
      modifies this
      ensures match TaskSlot(taskId, |old(tasks)|)
              case None => r == None && tasks == old(tasks)
              case Some(i) => r == Some(ApplyHashtag(old(tasks)[i], content, hashtag))
                              && tasks == old(tasks)[i := r.value]
      ensures old(Valid()) ==> Valid()
    {
      var slot := TaskSlot(taskId, |tasks|);
      if slot.None? {
        return None;
      }
      var i := slot.value;
      var task := ApplyHashtag(tasks[i], content, hashtag);
      tasks := tasks[i := task];
      r := Some(task);
    }

    /**
     * `update_task_details`: the task at the id gets the editor's merge and is
     * returned; an id past the end changes nothing and gives `None`.
     */
    method UpdateTaskDetails(taskId: nat, updates: Object) returns (r: Option<Object>)
      requires taskId < |tasks| ==> HasDetailKeys(tasks[taskId])
      modifies this
      ensures taskId >= |old(tasks)| ==> r == None && tasks == old(tasks)
      ensures taskId < |old(tasks)| ==>
                && r == Some(MergeDetails(old(tasks)[taskId], updates))
                && tasks == old(tasks)[taskId := r.value]
      ensures old(Valid()) ==> Valid()
    {
      if taskId >= |tasks| {
        return None;
      }
      var task := MergeDetails(tasks[taskId], updates);
      MergeDetailsIdempotent(tasks[taskId], updates);
      tasks := tasks[taskId := task];
      r := Some(task);
    }
  }
}
