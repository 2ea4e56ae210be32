/**
 * The message template store (src/stores/templateStore.ts, the record type in
 * src/types/template.ts): the saved templates in insertion order, three of
 * them built in. The clock and the UUID generator are parameters.
 */
module TemplateStore {
  import opened Options
  import opened Sequences
  import opened Strings

  datatype MessageTemplate = MessageTemplate(
    id: string,
    name: string,
    content: string,
    category: Option<string>,
    createdAt: int)

  /** `Partial<MessageTemplate>`; `category: Some(None)` is the key set to `undefined`. */
  datatype TemplatePatch = TemplatePatch(
    id: Option<string>,
    name: Option<string>,
    content: Option<string>,
    category: Option<Option<string>>,
    createdAt: Option<int>)

  /** `{ ...template, ...updates }`. */
  function MergeTemplate(t: MessageTemplate, updates: TemplatePatch): MessageTemplate {
    MessageTemplate(
      Override(t.id, updates.id),
      Override(t.name, updates.name),
      Override(t.content, updates.content),
      Override(t.category, updates.category),
      Override(t.createdAt, updates.createdAt))
  }

  /** The prefix that marks the built-in templates. */
  const DEFAULT_ID_PREFIX: string := "default-"

  /** The three built-in templates, all created at `now`. */
  function DefaultTemplates(now: int): (ts: seq<MessageTemplate>)
    ensures |ts| == 3
    ensures ts[0].id == "default-1" && ts[1].id == "default-2" && ts[2].id == "default-3"
    ensures forall i :: 0 <= i < |ts| ==> StartsWith(ts[i].id, DEFAULT_ID_PREFIX) && ts[i].createdAt == now
  {
    [ MessageTemplate("default-1", "挨拶", "お疲れ様です！", Some("挨拶"), now),
      MessageTemplate("default-2", "了解", "了解しました👍", Some("返信"), now),
      MessageTemplate("default-3", "ありがとう", "ありがとうございます！", Some("返信"), now) ]
  }

  /** `templates.map(t => t.id === id ? { ...t, ...updates } : t)`. */
  function UpdateTemplates(templates: seq<MessageTemplate>, id: string, updates: TemplatePatch): (r: seq<MessageTemplate>)
    ensures |r| == |templates|
    ensures forall i :: 0 <= i < |templates| && templates[i].id == id ==> r[i] == MergeTemplate(templates[i], updates)
    ensures forall i :: 0 <= i < |templates| && templates[i].id != id ==> r[i] == templates[i]
  {
    seq(|templates|, i requires 0 <= i < |templates| =>
      if templates[i].id == id then MergeTemplate(templates[i], updates) else templates[i])
  }

  /** The keep-test of `deleteTemplate`. */
  function KeepsTemplate(id: string): MessageTemplate -> bool {
    (t: MessageTemplate) => t.id != id
  }

  /** The test of `getTemplate`'s `find`. */
  function HasId(id: string): MessageTemplate -> bool {
    (t: MessageTemplate) => t.id == id
  }

  /** The test of `getTemplatesByCategory`: an absent category equals no string. */
  function InCategory(category: string): MessageTemplate -> bool {
    (t: MessageTemplate) => t.category == Some(category)
  }

  /** Deleting keeps exactly the templates with another id, in order and with their multiplicity. */
  lemma DeleteKeepsOthers(templates: seq<MessageTemplate>, id: string)
    ensures IsSubseq(Select(templates, KeepsTemplate(id)), templates)
    ensures forall t :: multiset(Select(templates, KeepsTemplate(id)))[t] == if t.id != id then multiset(templates)[t] else 0
  {
    SelectMultiset(templates, KeepsTemplate(id));
  }

  class TemplateState {
    var templates: seq<MessageTemplate>

    /** The initial state: the three built-in templates. */
    constructor (now: int)
      ensures templates == DefaultTemplates(now)
    {
      templates := DefaultTemplates(now);
    }

    /** Appends one template with a new id. */
    method AddTemplate(name: string, content: string, category: Option<string>, freshId: string, now: int)
      modifies this
      ensures templates == old(templates) + [MessageTemplate(freshId, name, content, category, now)]
    {
      templates := templates + [MessageTemplate(freshId, name, content, category, now)];
    }

    /** Merges the updates into every template with that id; the others stay as they are. */
    method UpdateTemplate(id: string, updates: TemplatePatch)
      modifies this
      ensures templates == UpdateTemplates(old(templates), id, updates)
    {
      templates := UpdateTemplates(templates, id, updates);
    }

    /** Removes every template with that id. */
    method DeleteTemplate(id: string)
      modifies this
      ensures templates == Select(old(templates), KeepsTemplate(id))
      ensures forall i :: 0 <= i < |templates| ==> templates[i].id != id
    {
      templates := Select(templates, KeepsTemplate(id));
    }

    /** The first template with that id; none when no template has it. */
    function GetTemplate(id: string): (r: Option<MessageTemplate>)
      reads this
      ensures r.None? <==> forall i :: 0 <= i < |templates| ==> templates[i].id != id
      ensures r.Some? ==> r.value in templates && r.value.id == id
      ensures r.Some? ==> exists i :: 0 <= i < |templates| && templates[i] == r.value
                                      && forall j :: 0 <= j < i ==> templates[j].id != id
    {
      FindFirst(templates, HasId(id))
    }

    /** The templates of that category, in store order, each as often as the store holds it. */
    function GetTemplatesByCategory(category: string): (r: seq<MessageTemplate>)
      reads this
      ensures IsSubseq(r, templates)
      ensures forall t :: t in r <==> t in templates && t.category == Some(category)
      ensures forall t :: multiset(r)[t] == if t.category == Some(category) then multiset(templates)[t] else 0
    {
      SelectMembers(templates, InCategory(category));
      SelectMultiset(templates, InCategory(category));
      Select(templates, InCategory(category))
    }
  }
}
