/** The `useSustainabilityBacklog` hook: the general backlog and the
    sustainability backlog, the editing gate, the drag-and-drop state, and the
    manual and file imports. Each React setter becomes an assignment to a
    field of `SustainabilityBacklogHook`. */
module BacklogHook {
  import opened Wrappers
  import opened Tasks
  import opened Text
  import opened ListOps
  import ProjectRoutes

  /** The list names the drag handlers compare (`sourceList`, `targetList`). */
  const BACKLOG: string := "backlog"
  const SUSTAINABILITY: string := "sustainability"

  const DROP_ERROR: string := "Error handling drop operation"
  const NOT_AN_ARRAY: string := "JSON data must be an array of issues."
  const DEFAULT_PRIORITY: string := "Medium"
  const ACCEPTED_JSON: string := "application/json"
  const ACCEPTED_CSV: string := "text/csv"

  /** What `handleDragStart` writes into the drag event's data transfer and
      `handleDrop` reads back. A payload that does not parse, or that lacks
      its fields, is `None` at the drop. */
  datatype DragData = DragData(item: Task, sourceList: string)

  /** Which list the caller hands to an import handler (`backlog` with
      `setBacklog`, or the sustainability list with its setter). */
  datatype ListName = General | Sustainability

  /** The manual-entry form; every field is a string, "" when blank. */
  datatype ManualIssue = ManualIssue(summary: string, description: string, priority: string, storyPoints: string)

  const BLANK_MANUAL_ISSUE: ManualIssue := ManualIssue("", "", DEFAULT_PRIORITY, "")

  /** One CSV row as the header-keyed parser returns it; a missing column is "". */
  datatype CsvRow = CsvRow(key: string, summary: string, description: string, priority: string, storyPoints: string)

  /** The fields of one element of an imported JSON array; a missing field
      is "". A number, string or boolean element has no fields and reads as
      an item whose fields are all "". */
  datatype JsonItem = JsonItem(id: string, key: string, summary: string, description: string, priority: string, storyPoints: string)

  /** One element of an imported JSON array: `null`, on which reading
      `item.id` throws, or anything else. */
  datatype JsonElement = NullElement | Element(item: JsonItem)

  /** What the CSV parser delivers for the file: rows, or a parse failure. */
  datatype CsvOutcome = CsvRows(rows: seq<CsvRow>) | CsvFailed(message: string)

  /** What `JSON.parse` delivers for the file text. */
  datatype JsonOutcome = JsonArray(elements: seq<JsonElement>) | JsonNotArray | JsonSyntaxError(message: string)

  /** The message of the `TypeError` that reading a field of `null` raises. */
  const NULL_ELEMENT_MESSAGE: string := "Cannot read properties of null (reading 'id')"
  const CSV_ERROR_PREFIX: string := "Error parsing CSV file: "
  const JSON_ERROR_PREFIX: string := "Error parsing JSON file: "

  /** The clock readings one new task takes, in milliseconds: `Date.now()`
      for its id, `Date.now()` again for its key, and `new Date()` for its
      `updated` field. Each is a separate reading, so they may differ. */
  datatype Readings = Readings(idAt: int, keyAt: int, updatedAt: int)

  /** An uploaded file: its MIME type and what each parser would make of it. */
  datatype UploadFile = UploadFile(mimeType: string, csv: CsvOutcome, json: JsonOutcome)

  /** `value ? parseInt(value) : null` for a story-points field. */
  function ParseStoryPoints(value: string): (r: Option<int>)
    ensures value == "" ==> r == None
    ensures value != "" ==> r == ParseInt(value)
  {
    if value == "" then None else ParseInt(value)
  }

  /** The task `handleManualImport` builds from the form. */
  function ManualTask(form: ManualIssue, at: Readings): (t: Task)
    ensures t.summary == form.summary && t.description == form.description
    ensures t.priority == Name(form.priority)
    ensures t.storyPoints == ParseStoryPoints(form.storyPoints) && t.updated == at.updatedAt
    ensures |t.id| > 7 && t.id[..7] == "manual-" && t.id[7..] == IntToString(at.idAt)
    ensures |t.key| > 7 && t.key[..7] == "MANUAL-" && t.key[7..] == IntToString(at.keyAt)
  {
    Task("manual-" + IntToString(at.idAt), "MANUAL-" + IntToString(at.keyAt),
         form.summary, form.description, Name(form.priority),
         ParseStoryPoints(form.storyPoints), at.updatedAt)
  }

  /** The row mapping of the CSV import: the id is always synthesised from
      the clock, a blank key is synthesised too, and a blank priority
      becomes "Medium". */
  function CsvTask(row: CsvRow, at: Readings): (t: Task)
    ensures t.id == "csv-" + IntToString(at.idAt)
    ensures row.key != "" ==> t.key == row.key
    ensures row.key == "" ==> t.key == "CSV-" + IntToString(at.keyAt)
    ensures row.priority != "" ==> t.priority == Name(row.priority)
    ensures row.priority == "" ==> t.priority == Name(DEFAULT_PRIORITY)
    ensures t.storyPoints == ParseStoryPoints(row.storyPoints) && t.updated == at.updatedAt
  {
    Task("csv-" + IntToString(at.idAt),
         if row.key != "" then row.key else "CSV-" + IntToString(at.keyAt),
         row.summary, row.description,
         Name(if row.priority != "" then row.priority else DEFAULT_PRIORITY),
         ParseStoryPoints(row.storyPoints), at.updatedAt)
  }

  /** The element mapping of the JSON import: a blank id or key is
      synthesised from the clock, a blank priority becomes "Medium". */
  function JsonTask(item: JsonItem, at: Readings): (t: Task)
    ensures item.id != "" ==> t.id == item.id
    ensures item.id == "" ==> t.id == "json-" + IntToString(at.idAt)
    ensures item.key != "" ==> t.key == item.key
    ensures item.key == "" ==> t.key == "JSON-" + IntToString(at.keyAt)
    ensures item.priority != "" ==> t.priority == Name(item.priority)
    ensures item.priority == "" ==> t.priority == Name(DEFAULT_PRIORITY)
    ensures t.storyPoints == ParseStoryPoints(item.storyPoints) && t.updated == at.updatedAt
  {
    Task(if item.id != "" then item.id else "json-" + IntToString(at.idAt),
         if item.key != "" then item.key else "JSON-" + IntToString(at.keyAt),
         item.summary, item.description,
         Name(if item.priority != "" then item.priority else DEFAULT_PRIORITY),
         ParseStoryPoints(item.storyPoints), at.updatedAt)
  }

  /** `results.data.map(...)`: row `i` is mapped with the readings
      `clock(i)`. */
  function CsvTasks(rows: seq<CsvRow>, clock: nat -> Readings): (r: seq<Task>)
    ensures |r| == |rows|
    ensures forall i :: 0 <= i < |rows| ==> r[i] == CsvTask(rows[i], clock(i))
  {
    seq(|rows|, i requires 0 <= i < |rows| => CsvTask(rows[i], clock(i)))
  }

  /** `jsonData.map(...)`: one task per element, element `i` mapped with
      the readings `clock(i)`, unless some element is `null`, where the
      mapping throws and yields nothing. */
  function JsonTasks(elements: seq<JsonElement>, clock: nat -> Readings): (r: Option<seq<Task>>)
    ensures r.None? <==> exists i :: 0 <= i < |elements| && elements[i].NullElement?
    ensures r.Some? ==> |r.value| == |elements|
    ensures r.Some? ==> forall i :: 0 <= i < |elements| ==>
      elements[i].Element? && r.value[i] == JsonTask(elements[i].item, clock(i))
  {
    if exists i :: 0 <= i < |elements| && elements[i].NullElement? then None
    else Some(seq(|elements|, i requires 0 <= i < |elements| => JsonTask(elements[i].item, clock(i))))
  }

  /** Two rows of one CSV import get the same id exactly when their ids
      were read from the clock in the same millisecond. */
  lemma CsvIdsCollide(rows: seq<CsvRow>, clock: nat -> Readings, i: nat, j: nat)
    requires i < |rows| && j < |rows|
    ensures CsvTasks(rows, clock)[i].id == CsvTasks(rows, clock)[j].id <==> clock(i).idAt == clock(j).idAt
  {
    var a, b := clock(i).idAt, clock(j).idAt;
    if CsvTasks(rows, clock)[i].id == CsvTasks(rows, clock)[j].id {
      assert "csv-" + IntToString(a) == "csv-" + IntToString(b);
      assert IntToString(a) == ("csv-" + IntToString(a))[4..];
      assert IntToString(b) == ("csv-" + IntToString(b))[4..];
      IntToStringInjective(a, b);
    }
  }

  /** Two manual tasks get the same id exactly when their ids were read
      from the clock in the same millisecond. */
  lemma ManualIdsCollide(f1: ManualIssue, at1: Readings, f2: ManualIssue, at2: Readings)
    ensures ManualTask(f1, at1).id == ManualTask(f2, at2).id <==> at1.idAt == at2.idAt
  {
    var t1, t2 := ManualTask(f1, at1), ManualTask(f2, at2);
    if t1.id == t2.id {
      assert IntToString(at1.idAt) == t1.id[7..] == t2.id[7..] == IntToString(at2.idAt);
      IntToStringInjective(at1.idAt, at2.idAt);
    }
  }

  /** The position `handleDrop` inserts at: the hovered index when one was
      recorded, otherwise the length of the target list. */
  function DropIndex(dropTargetIndex: Option<nat>, targetList: string,
                     backlog: seq<Task>, sustainability: seq<Task>): (r: nat)
    ensures dropTargetIndex.Some? ==> r == dropTargetIndex.value
    ensures forall x :: dropTargetIndex.None? && targetList == BACKLOG ==>
      InsertAt(backlog, r, x) == backlog + [x]
    ensures forall x :: dropTargetIndex.None? && targetList != BACKLOG ==>
      InsertAt(sustainability, r, x) == sustainability + [x]
  {
    match dropTargetIndex
    case Some(i) => i
    case None => if targetList == BACKLOG then |backlog| else |sustainability|
  }

  /** `updateSustainabilityBacklog`: the PUT it issues, if any. Nothing is
      sent without a project key or for an empty list. */
  function PersistRequest(list: seq<Task>, projectKey: Option<string>): (r: Option<(string, seq<Task>)>)
    ensures r.Some? <==> projectKey.Some? && projectKey.value != "" && list != []
    ensures r.Some? ==> r.value == (projectKey.value, list)
  {
    if projectKey.None? || projectKey.value == "" || list == [] then None
    else Some((projectKey.value, list))
  }

  /** A list the client persists for a project the server knows replaces
      that project's stored list wholesale (200); for an unknown key the
      server answers 404 and stores nothing. */
  lemma PersistReplacesStoredList(store: ProjectRoutes.Store, list: seq<Task>, projectKey: Option<string>)
    requires PersistRequest(list, projectKey).Some?
    ensures var (key, body) := PersistRequest(list, projectKey).value;
      var (status, store') := ProjectRoutes.PutSustainabilityBacklog(store, key, ProjectRoutes.AnArray(body));
      (key in store ==> status == 200 && store'[key].sustainabilityBacklog == list &&
                        store'[key].projectName == store[key].projectName) &&
      (key !in store ==> status == 404 && store' == store)
  {
  }

  class SustainabilityBacklogHook {
    /** The general backlog, which the caller owns and passes to the
        handlers together with its setter. */
    var backlog: seq<Task>
    var sustainability: seq<Task>
    var isEditing: bool
    var draggedItem: Option<Task>
    var dropTargetIndex: Option<nat>
    var dropTargetList: Option<string>
    var error: Option<string>
    var manualIssue: ManualIssue

    /** The hook's initial state, beside the caller's general backlog. */
    constructor (general: seq<Task>)
      ensures backlog == general && sustainability == [] && !isEditing
      ensures draggedItem == None && dropTargetIndex == None && dropTargetList == None
      ensures error == None && manualIssue == BLANK_MANUAL_ISSUE
    {
      backlog := general;
      sustainability := [];
      isEditing := false;
      draggedItem, dropTargetIndex, dropTargetList := None, None, None;
      error := None;
      manualIssue := BLANK_MANUAL_ISSUE;
    }

    /** The list an import handler was given. */
    function List(name: ListName): seq<Task>
      reads this
    {
      match name
      case General => backlog
      case Sustainability => sustainability
    }

    /** `setIsEditing`. */
    method SetEditing(editing: bool)
      modifies this`isEditing
      ensures isEditing == editing
    {
      isEditing := editing;
    }

    /** `handleDragStart`: outside editing mode the drag is cancelled and
        nothing is recorded; otherwise the item becomes the dragged item and
        the payload `{item, sourceList}` is written to the transfer. */
    method DragStart(item: Task, sourceList: string) returns (transfer: Option<DragData>)
      modifies this`draggedItem
      ensures !isEditing ==> transfer == None && draggedItem == old(draggedItem)
      ensures isEditing ==> transfer == Some(DragData(item, sourceList)) && draggedItem == Some(item)
    {
      if !isEditing {
        return None;
      }
      transfer := Some(DragData(item, sourceList));
      draggedItem := Some(item);
    }

    /** `handleDragEnter`: hovering the upper half of row `index` targets
        `index`, the lower half `index + 1`. `upperHalf` stands for the
        pointer-geometry test. */
    method DragEnter(index: nat, list: string, upperHalf: bool)
      modifies this`dropTargetIndex, this`dropTargetList
      ensures !isEditing ==> dropTargetIndex == old(dropTargetIndex) && dropTargetList == old(dropTargetList)
      ensures isEditing ==> dropTargetIndex == Some(if upperHalf then index else index + 1)
      ensures isEditing ==> dropTargetList == Some(list)
    {
      if !isEditing {
        return;
      }
      dropTargetIndex := Some(if upperHalf then index else index + 1);
      dropTargetList := Some(list);
    }

    /** `handleDragLeave`: forget the drop target. */
    method DragLeave()
      modifies this`dropTargetIndex, this`dropTargetList
      ensures !isEditing ==> dropTargetIndex == old(dropTargetIndex) && dropTargetList == old(dropTargetList)
      ensures isEditing ==> dropTargetIndex == None && dropTargetList == None
    {
      if !isEditing {
        return;
      }
      dropTargetIndex, dropTargetList := None, None;
    }

    /** `handleDrop`. Outside editing mode nothing changes. Otherwise an
        unreadable payload only sets the error; a same-list drop reorders
        that list; a drop onto the other list filters every task with the
        item's id out of the source and inserts the item into the target; any
        other pair of list names changes no list. The drag state is cleared
        in every case. */
    method Drop(transfer: Option<DragData>, targetList: string)
      modifies this`backlog, this`sustainability, this`error
      modifies this`draggedItem, this`dropTargetIndex, this`dropTargetList
      ensures !old(isEditing) ==>
        backlog == old(backlog) && sustainability == old(sustainability) && error == old(error) &&
        draggedItem == old(draggedItem) && dropTargetIndex == old(dropTargetIndex) &&
        dropTargetList == old(dropTargetList)
      ensures old(isEditing) ==> draggedItem == None && dropTargetIndex == None && dropTargetList == None
      ensures old(isEditing) && transfer.None? ==>
        backlog == old(backlog) && sustainability == old(sustainability) && error == Some(DROP_ERROR)
      ensures old(isEditing) && transfer.Some? ==>
        var item := transfer.value.item;
        var source := transfer.value.sourceList;
        var at := DropIndex(old(dropTargetIndex), targetList, old(backlog), old(sustainability));
        error == old(error) &&
        if source == targetList then
          if source == BACKLOG then
            backlog == Reorder(old(backlog), item, at) && sustainability == old(sustainability)
          else
            sustainability == Reorder(old(sustainability), item, at) && backlog == old(backlog)
        else if source == BACKLOG && targetList == SUSTAINABILITY then
          backlog == RemoveId(old(backlog), item.id) && sustainability == InsertAt(old(sustainability), at, item)
        else if source == SUSTAINABILITY && targetList == BACKLOG then
          sustainability == RemoveId(old(sustainability), item.id) && backlog == InsertAt(old(backlog), at, item)
        else
          backlog == old(backlog) && sustainability == old(sustainability)
    {
      if !isEditing {
        return;
      }
      match transfer {
        case None =>
          error := Some(DROP_ERROR);
        case Some(DragData(item, source)) =>
          var at := DropIndex(dropTargetIndex, targetList, backlog, sustainability);
          if source == targetList {
            if source == BACKLOG {
              backlog := Reorder(backlog, item, at);
            } else {
              sustainability := Reorder(sustainability, item, at);
            }
          } else if source == BACKLOG && targetList == SUSTAINABILITY {
            backlog, sustainability := RemoveId(backlog, item.id), InsertAt(sustainability, at, item);
          } else if source == SUSTAINABILITY && targetList == BACKLOG {
            sustainability, backlog := RemoveId(sustainability, item.id), InsertAt(backlog, at, item);
          }
      }
      draggedItem, dropTargetIndex, dropTargetList := None, None, None;
    }

    /** `handleAddToSustainability`: append unless a task with that id is
        already there. */
    method AddToSustainability(issue: Task)
      modifies this`sustainability
      ensures sustainability == AddIfAbsent(old(sustainability), issue)
    {
      var present := exists i :: 0 <= i < |sustainability| && sustainability[i].id == issue.id;
      if !present {
        sustainability := sustainability + [issue];
      }
    }

    /** `handleRemoveFromSustainability`: drop every task with that id. */
    method RemoveFromSustainability(issue: Task)
      modifies this`sustainability
      ensures sustainability == RemoveId(old(sustainability), issue.id)
    {
      sustainability := RemoveId(sustainability, issue.id);
    }

    method SetList(name: ListName, tasks: seq<Task>)
      modifies this`backlog, this`sustainability
      ensures List(name) == tasks
      ensures name == General ==> sustainability == old(sustainability)
      ensures name == Sustainability ==> backlog == old(backlog)
    {
      match name {
        case General => backlog := tasks;
        case Sustainability => sustainability := tasks;
      }
    }

    /** `handleManualImport`: with a blank summary nothing happens; otherwise
        one task built from the form is appended to the given list and the
        form is reset. */
    method ManualImport(target: ListName, at: Readings)
      modifies this`backlog, this`sustainability, this`manualIssue
      ensures old(manualIssue.summary) == "" ==>
        backlog == old(backlog) && sustainability == old(sustainability) && manualIssue == old(manualIssue)
      ensures old(manualIssue.summary) != "" ==>
        List(target) == old(List(target)) + [ManualTask(old(manualIssue), at)] &&
        manualIssue == BLANK_MANUAL_ISSUE
      ensures target == General ==> sustainability == old(sustainability)
      ensures target == Sustainability ==> backlog == old(backlog)
    {
      if manualIssue.summary == "" {
        return;
      }
      var issue := ManualTask(manualIssue, at);
      SetList(target, List(target) + [issue]);
      manualIssue := BLANK_MANUAL_ISSUE;
    }

    /** `handleFileImport`. A missing file or a type other than JSON or CSV
        raises the alert (`alerted`) and changes nothing. A CSV file appends
        one task per row; a JSON file must hold an array without `null`
        elements, whose elements are appended one task each. A parse
        failure, a JSON root that is not an array, or a `null` element
        appends nothing and reports `importError`, the message the handler
        passes to the `setError` its caller supplied; the hook's own `error`
        is not touched. Imported tasks are appended after the existing ones
        without de-duplication. */
    method FileImport(file: Option<UploadFile>, target: ListName, clock: nat -> Readings)
      returns (alerted: bool, importError: Option<string>)
      modifies this`backlog, this`sustainability
      ensures alerted <==> file.None? || (file.value.mimeType != ACCEPTED_JSON && file.value.mimeType != ACCEPTED_CSV)
      ensures target == General ==> sustainability == old(sustainability)
      ensures target == Sustainability ==> backlog == old(backlog)
      ensures error == old(error)
      ensures alerted ==> List(target) == old(List(target)) && importError == None
      ensures !alerted && file.value.mimeType == ACCEPTED_CSV ==>
        match file.value.csv
        case CsvRows(rows) => List(target) == old(List(target)) + CsvTasks(rows, clock) && importError == None
        case CsvFailed(message) => List(target) == old(List(target)) && importError == Some(CSV_ERROR_PREFIX + message)
      ensures !alerted && file.value.mimeType == ACCEPTED_JSON ==>
        match file.value.json
        case JsonArray(elements) =>
          (JsonTasks(elements, clock).Some? ==>
             List(target) == old(List(target)) + JsonTasks(elements, clock).value && importError == None) &&
          (JsonTasks(elements, clock).None? ==>
             List(target) == old(List(target)) && importError == Some(JSON_ERROR_PREFIX + NULL_ELEMENT_MESSAGE))
        case JsonNotArray => List(target) == old(List(target)) && importError == Some(JSON_ERROR_PREFIX + NOT_AN_ARRAY)
        case JsonSyntaxError(message) => List(target) == old(List(target)) && importError == Some(JSON_ERROR_PREFIX + message)
    {
      importError := None;
      if file.None? || (file.value.mimeType != ACCEPTED_JSON && file.value.mimeType != ACCEPTED_CSV) {
        return true, None;
      }
      alerted := false;
      var f := file.value;
      if f.mimeType == ACCEPTED_CSV {
        match f.csv {
          case CsvRows(rows) =>
            SetList(target, List(target) + CsvTasks(rows, clock));
          case CsvFailed(message) =>
            importError := Some(CSV_ERROR_PREFIX + message);
        }
      } else {
        match f.json {
          case JsonArray(elements) =>
            var issues := JsonTasks(elements, clock);
            if issues.Some? {
              SetList(target, List(target) + issues.value);
            } else {
              importError := Some(JSON_ERROR_PREFIX + NULL_ELEMENT_MESSAGE);
            }
          case JsonNotArray =>
            importError := Some(JSON_ERROR_PREFIX + NOT_AN_ARRAY);
          case JsonSyntaxError(message) =>
            importError := Some(JSON_ERROR_PREFIX + message);
        }
      }
    }
  }

  /** Example: a drag from the general backlog `[a, b]` dropped onto the
      upper half of the first row of the sustainability list `[c]`, replayed
      through the handlers' contracts. A drag outside editing mode is
      refused first. */
  method DragAcrossExample(a: Task, b: Task, c: Task) returns (backlog: seq<Task>, sustainability: seq<Task>)
    requires a.id != b.id && a.id != c.id && b.id != c.id
    ensures backlog == [b] && sustainability == [a, c]
  {
    var hook := new SustainabilityBacklogHook([a, b]);
    hook.AddToSustainability(c);
    assert hook.sustainability == [c];
    var ignored := hook.DragStart(a, BACKLOG);
    assert ignored == None;
    hook.SetEditing(true);
    var transfer := hook.DragStart(a, BACKLOG);
    assert transfer == Some(DragData(a, BACKLOG));
    hook.DragEnter(0, SUSTAINABILITY, true);
    assert hook.dropTargetIndex == Some(0) && hook.backlog == [a, b] && hook.sustainability == [c];
    hook.Drop(transfer, SUSTAINABILITY);
    assert [a, b][..1] == [a];
    assert hook.backlog == [b];
    assert hook.sustainability == [a, c];
    assert hook.draggedItem == None && hook.dropTargetIndex == None;
    backlog, sustainability := hook.backlog, hook.sustainability;
  }
}
