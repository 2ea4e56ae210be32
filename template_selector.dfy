/**
 * The template picker (src/components/molecules/TemplateSelector.tsx): the
 * add-form guard, the grouping of templates by category, the preview text and
 * the rule that built-in templates cannot be deleted.
 */
module TemplateSelector {
  import opened Options
  import opened Sequences
  import opened Strings
  import opened TemplateStore

  /** The group of templates without a category. */
  const OTHER_GROUP: string := "その他"

  /** `template.category || 'その他'`: an absent or empty category falls into the other group. */
  function GroupKey(t: MessageTemplate): (k: string)
    ensures k != [] 
    ensures t.category.Some? && t.category.value != [] ==> k == t.category.value
    ensures t.category.None? || t.category.value == [] ==> k == OTHER_GROUP
  {
    if t.category.Some? && t.category.value != [] then t.category.value else OTHER_GROUP
  }

  /** The group key of each template, in store order. */
  function GroupKeys(templates: seq<MessageTemplate>): (keys: seq<string>)
    ensures |keys| == |templates|
    ensures forall i :: 0 <= i < |templates| ==> keys[i] == GroupKey(templates[i])
  {
    seq(|templates|, i requires 0 <= i < |templates| => GroupKey(templates[i]))
  }

  function InGroup(k: string): MessageTemplate -> bool {
    (t: MessageTemplate) => GroupKey(t) == k
  }

  /** The grouping the reduce computes: one entry per occurring key, holding that key's templates in store order. */
  ghost function Grouped(templates: seq<MessageTemplate>): map<string, seq<MessageTemplate>> {
    map k | k in GroupKeys(templates) :: Select(templates, InGroup(k))
  }

  lemma GroupKeysSnoc(s: seq<MessageTemplate>, t: MessageTemplate)
    ensures GroupKeys(s + [t]) == GroupKeys(s) + [GroupKey(t)]
  {
  }

  /** One step of the reduce, for the group of one key. */
  lemma GroupedSnocAt(s: seq<MessageTemplate>, t: MessageTemplate, k2: string)
    ensures Select(s + [t], InGroup(k2))
            == if k2 != GroupKey(t) then Select(s, InGroup(k2))
               else if k2 in GroupKeys(s) then Select(s, InGroup(k2)) + [t]
               else [t]
  {
    SelectSnoc(s, t, InGroup(k2));
    if k2 == GroupKey(t) && k2 !in GroupKeys(s) {
      forall i | 0 <= i < |s| ensures !InGroup(k2)(s[i]) {
        assert GroupKeys(s)[i] == GroupKey(s[i]);
      }
      SelectNone(s, InGroup(k2));
    }
  }

  /** One step of the reduce: the new template goes to the end of its group, which is created when missing. */
  lemma GroupedSnoc(s: seq<MessageTemplate>, t: MessageTemplate)
    ensures var g := Grouped(s);
            var k := GroupKey(t);
            Grouped(s + [t]) == g[k := (if k in g then g[k] else []) + [t]]
  {
    var g := Grouped(s);
    var k := GroupKey(t);
    var g' := g[k := (if k in g then g[k] else []) + [t]];
    var h := Grouped(s + [t]);
    GroupKeysSnoc(s, t);
    assert forall k2 :: k2 in h <==> k2 in g' by {
      GroupedDomain(s);
      GroupedDomain(s + [t]);
    }
    forall k2 | k2 in h ensures h[k2] == g'[k2] {
      GroupedSnocAt(s, t, k2);
    }
  }

  /** The grouping has an entry exactly for each key that occurs. */
  lemma GroupedDomain(s: seq<MessageTemplate>)
    ensures forall k :: k in Grouped(s) <==> k in GroupKeys(s)
  {
  }

  /** What one loop step of `GroupTemplates` needs: the grouping and the key order of the next prefix. */
  lemma GroupStep(templates: seq<MessageTemplate>, i: nat)
    requires i < |templates|
    ensures var g := Grouped(templates[..i]);
            var k := GroupKey(templates[i]);
            && Grouped(templates[..i + 1]) == g[k := (if k in g then g[k] else []) + [templates[i]]]
            && Distinct(GroupKeys(templates[..i + 1]))
               == Distinct(GroupKeys(templates[..i])) + (if k in g then [] else [k])
  {
    var t := templates[i];
    var prefix := templates[..i];
    assert templates[..i + 1] == prefix + [t];
    GroupedSnoc(prefix, t);
    GroupKeysSnoc(prefix, t);
    var keys := GroupKeys(prefix + [t]);
    assert keys[..|keys| - 1] == GroupKeys(prefix);
    assert (GroupKey(t) in Grouped(prefix)) == (GroupKey(t) in Distinct(GroupKeys(prefix)));
  }

  /**
   * The properties every plain object inherits from `Object.prototype`. The
   * accumulator starts as `{}`, so for such a key `acc[category]` is already
   * truthy (a function, or the prototype itself for `__proto__`): no array is
   * created and `acc[category].push` throws a TypeError.
   */
  const INHERITED_KEYS: set<string> := {
    "constructor", "hasOwnProperty", "isPrototypeOf", "propertyIsEnumerable",
    "toLocaleString", "toString", "valueOf", "__proto__",
    "__defineGetter__", "__defineSetter__", "__lookupGetter__", "__lookupSetter__"
  }

  /** Some template's group key names an inherited property, so the reduce throws. */
  predicate HitsInheritedKey(templates: seq<MessageTemplate>) {
    exists i :: 0 <= i < |templates| && GroupKey(templates[i]) in INHERITED_KEYS
  }

  /**
   * The reduce over the templates, with the key order `Object.entries` then
   * lists the groups in: the order in which the keys were first created. It
   * throws (`threw`) exactly when some group key names an inherited property;
   * otherwise it builds the grouping.
   */
  method GroupTemplates(templates: seq<MessageTemplate>)
    returns (groups: map<string, seq<MessageTemplate>>, order: seq<string>, threw: bool)
    ensures threw <==> HitsInheritedKey(templates)
    ensures !threw ==> groups == Grouped(templates)
    ensures !threw ==> order == Distinct(GroupKeys(templates))
  {
    groups := map[];
    order := [];
    threw := false;
    var i := 0;
    assert Grouped(templates[..0]) == map[] by {
      assert GroupKeys(templates[..0]) == [];
    }
    while i < |templates|
      invariant 0 <= i <= |templates|
      invariant forall j :: 0 <= j < i ==> GroupKey(templates[j]) !in INHERITED_KEYS
      invariant groups == Grouped(templates[..i])
      invariant order == Distinct(GroupKeys(templates[..i]))
    {
      var k := GroupKey(templates[i]);
      if k in INHERITED_KEYS {
        assert GroupKey(templates[i]) in INHERITED_KEYS;
        threw := true;
        return;
      }
      groups, order := AddToGroup(templates, i, groups, order);
      i := i + 1;
    }
    assert templates[..i] == templates;
  }

  /** One reduce step that does not throw: the template joins its group, which is created when missing. */
  method AddToGroup(templates: seq<MessageTemplate>, i: nat, groups: map<string, seq<MessageTemplate>>, order: seq<string>)
    returns (groups': map<string, seq<MessageTemplate>>, order': seq<string>)
    requires i < |templates|
    requires groups == Grouped(templates[..i]) && order == Distinct(GroupKeys(templates[..i]))
    ensures groups' == Grouped(templates[..i + 1]) && order' == Distinct(GroupKeys(templates[..i + 1]))
  {
    var t := templates[i];
    var k := GroupKey(t);
    GroupStep(templates, i);
    if k in groups {
      groups' := groups[k := groups[k] + [t]];
      order' := order;
    } else {
      assert [] + [t] == [t];
      groups' := groups[k := [t]];
      order' := order + [k];
    }
  }

  /** A category typed into the add form can make the panel throw: a template filed under "toString". */
  lemma InheritedCategoryThrows(t: MessageTemplate)
    requires t.category == Some("toString")
    ensures HitsInheritedKey([t])
  {
    assert GroupKey([t][0]) == "toString";
  }

  /**
   * Every template is in the group of its key and in no other, each group
   * keeps store order, and the groups are exactly the keys that occur.
   */
  lemma GroupingPartitions(templates: seq<MessageTemplate>)
    ensures forall k :: k in Grouped(templates) <==> exists t :: t in templates && GroupKey(t) == k
    ensures forall t :: t in templates ==> GroupKey(t) in Grouped(templates) && t in Grouped(templates)[GroupKey(t)]
    ensures forall k, t :: k in Grouped(templates) && t in Grouped(templates)[k] ==> GroupKey(t) == k
    ensures forall k :: k in Grouped(templates) ==> IsSubseq(Grouped(templates)[k], templates)
  {
    var g := Grouped(templates);
    var keys := GroupKeys(templates);
    forall k | k in g ensures exists t :: t in templates && GroupKey(t) == k {
      var i :| 0 <= i < |keys| && keys[i] == k;
      assert templates[i] in templates;
    }
    forall t | t in templates ensures GroupKey(t) in g && t in g[GroupKey(t)] {
      var i :| 0 <= i < |templates| && templates[i] == t;
      assert keys[i] == GroupKey(t);
      SelectMembers(templates, InGroup(GroupKey(t)));
    }
    forall k, t | k in g && t in g[k] ensures GroupKey(t) == k {
      SelectMembers(templates, InGroup(k));
    }
  }

  /** Each group holds as many templates as there are with its key. */
  lemma {:induction false} GroupSizesAreCounts(templates: seq<MessageTemplate>)
    ensures forall k :: k in Grouped(templates) ==> |Grouped(templates)[k]| == Count(templates, InGroup(k))
  {
    forall k | k in Grouped(templates) ensures |Grouped(templates)[k]| == Count(templates, InGroup(k)) {
      CountIsSelectLength(templates, InGroup(k));
    }
  }

  /** What the add form hands to `addTemplate`. */
  datatype NewTemplate = NewTemplate(name: string, content: string, category: Option<string>)

  /**
   * `handleAddTemplate`'s guard: nothing is added unless the name and the
   * content are non-blank; the values are trimmed and a blank category is
   * dropped.
   */
  function NewTemplateRequest(name: string, content: string, category: string): (r: Option<NewTemplate>)
    ensures r.Some? <==> !IsBlank(name) && !IsBlank(content)
    ensures r.Some? ==> r.value.name == Trim(name) && r.value.content == Trim(content)
    ensures r.Some? ==> (r.value.category.None? <==> IsBlank(category))
    ensures r.Some? && r.value.category.Some? ==> r.value.category.value == Trim(category)
  {
    if Trim(name) != [] && Trim(content) != [] then
      Some(NewTemplate(Trim(name), Trim(content), if Trim(category) != [] then Some(Trim(category)) else None))
    else None
  }

  /**
   * An accepted request carries non-blank values that are already trimmed, and
   * a present category is non-empty, so its template is grouped under it.
   */
  lemma RequestIsNormalised(name: string, content: string, category: string)
    requires NewTemplateRequest(name, content, category).Some?
    ensures var r := NewTemplateRequest(name, content, category).value;
            && Trim(r.name) == r.name && r.name != []
            && Trim(r.content) == r.content && r.content != []
            && (r.category.Some? ==> Trim(r.category.value) == r.category.value && r.category.value != [])
  {
    TrimIdempotent(name);
    TrimIdempotent(content);
    TrimIdempotent(category);
  }

  /** The form's submit: adds the requested template, or leaves the store unchanged. */
  method HandleAddTemplate(store: TemplateState, name: string, content: string, category: string, freshId: string, now: int)
    modifies store
    ensures var r := NewTemplateRequest(name, content, category);
            && (r.None? ==> store.templates == old(store.templates))
            && (r.Some? ==>
                  store.templates == old(store.templates) + [MessageTemplate(freshId, r.value.name, r.value.content, r.value.category, now)])
  {
    var r := NewTemplateRequest(name, content, category);
    if r.Some? {
      store.AddTemplate(r.value.name, r.value.content, r.value.category, freshId, now);
    }
  }

  /** The preview length. */
  const PREVIEW_LENGTH: nat := 20

  /** The content's first 20 characters, followed by '...' exactly when it is longer. */
  function Preview(content: string): (p: string)
    ensures |content| <= PREVIEW_LENGTH ==> p == content
    ensures |content| > PREVIEW_LENGTH ==> |p| == PREVIEW_LENGTH + 3 && p[..PREVIEW_LENGTH] == content[..PREVIEW_LENGTH]
                                           && p[PREVIEW_LENGTH..] == "..."
    ensures IsPrefix(p[..if |p| < PREVIEW_LENGTH then |p| else PREVIEW_LENGTH], content)
  {
    SliceTo(content, PREVIEW_LENGTH) + (if |content| > PREVIEW_LENGTH then "..." else "")
  }

  /** A template offers a delete button unless its id marks it as built in. */
  predicate Deletable(t: MessageTemplate) {
    !StartsWith(t.id, DEFAULT_ID_PREFIX)
  }

  /** None of the built-in templates can be deleted from the picker. */
  lemma DefaultsNotDeletable(now: int)
    ensures forall i :: 0 <= i < |DefaultTemplates(now)| ==> !Deletable(DefaultTemplates(now)[i])
  {
  }
}
