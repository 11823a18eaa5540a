/** The form table: lookup by id, listing, insertion, partial update and
    deletion. The table is a sequence in insertion order, and the database
    assigns ids from a counter. */
module FormRepositories {
  import opened Wrappers
  import opened Query
  import opened Schema

  /** A row of the `forms` table: fields and rules hold the payload's JSON. */
  datatype Form = Form(id: nat, name: string, description: Option<string>, fields: seq<FormField>, rules: Option<seq<FormRule>>)

  /** A `FormSchemaCreate` body as `update` receives it. `name` and `fields`
      are required, so a client always sends them; the two flags say whether
      the optional `description` and `rules` were sent, which is what
      `model_dump(exclude_unset=True)` looks at. */
  datatype FormUpdate = FormUpdate(data: FormSchemaCreate, descriptionSet: bool, rulesSet: bool)

  /** One `(key, value)` item of the dumped update. */
  datatype FormAttr =
    | NameAttr(name: string)
    | DescriptionAttr(description: Option<string>)
    | FieldsAttr(fields: seq<FormField>)
    | RulesAttr(rules: Option<seq<FormRule>>)

  /** `model_dump(exclude_unset=True).items()`, in declaration order. */
  function UpdateItems(u: FormUpdate): (items: seq<FormAttr>)
  {
    [NameAttr(u.data.name)]
    + (if u.descriptionSet then [DescriptionAttr(u.data.description)] else [])
    + [FieldsAttr(u.data.fields)]
    + (if u.rulesSet then [RulesAttr(u.data.rules)] else [])
  }

  /** `setattr(db_form, key, value)`. */
  function SetAttr(f: Form, a: FormAttr): Form
  {
    match a
    case NameAttr(n) => f.(name := n)
    case DescriptionAttr(d) => f.(description := d)
    case FieldsAttr(fs) => f.(fields := fs)
    case RulesAttr(rs) => f.(rules := rs)
  }

  /** The form after the first items have been applied in order. */
  function ApplyItems(f: Form, items: seq<FormAttr>): Form
  {
    if items == [] then f else SetAttr(ApplyItems(f, items[..|items| - 1]), items[|items| - 1])
  }

  /** The partial overwrite: name and fields always, description and rules
      only when sent; the id never changes. */
  function Overwrite(f: Form, u: FormUpdate): Form
  {
    Form(f.id, u.data.name,
         if u.descriptionSet then u.data.description else f.description,
         u.data.fields,
         if u.rulesSet then u.data.rules else f.rules)
  }

  /** Applying the dumped items one by one is the partial overwrite. */
  lemma ApplyUpdateItems(f: Form, u: FormUpdate)
    ensures ApplyItems(f, UpdateItems(u)) == Overwrite(f, u)
  {
    var items := UpdateItems(u);
    var n := [NameAttr(u.data.name)];
    var d := if u.descriptionSet then [DescriptionAttr(u.data.description)] else [];
    var fs := [FieldsAttr(u.data.fields)];
    var r := if u.rulesSet then [RulesAttr(u.data.rules)] else [];
    assert items == n + d + fs + r;
    assert ApplyItems(f, n) == f.(name := u.data.name) by {
      assert n[..0] == [];
    }
    var afterD := if u.descriptionSet then f.(name := u.data.name, description := u.data.description) else f.(name := u.data.name);
    assert ApplyItems(f, n + d) == afterD by {
      if u.descriptionSet { assert (n + d)[..1] == n; } else { assert n + d == n; }
    }
    assert ApplyItems(f, n + d + fs) == afterD.(fields := u.data.fields) by {
      assert (n + d + fs)[..|n + d + fs| - 1] == n + d;
    }
    if u.rulesSet {
      assert (n + d + fs + r)[..|n + d + fs + r| - 1] == n + d + fs;
    } else {
      assert n + d + fs + r == n + d + fs;
    }
  }

  /** An update that sends neither optional key keeps the stored
      description and rules; one that sends the stored values changes
      nothing. */
  lemma OverwriteKeeps(f: Form, u: FormUpdate)
    ensures !u.descriptionSet ==> Overwrite(f, u).description == f.description
    ensures !u.rulesSet ==> Overwrite(f, u).rules == f.rules
    ensures Overwrite(f, u).id == f.id
    ensures u == FormUpdate(FormSchemaCreate(f.name, f.description, f.fields, f.rules), true, true) ==> Overwrite(f, u) == f
  {
  }

  /** `query(Form).filter(Form.id == id).first()`, as a position. */
  function FormIndex(forms: seq<Form>, id: int): (r: Option<nat>)
    ensures r.Some? ==> r.value < |forms| && forms[r.value].id == id
    ensures r.Some? ==> forall j :: 0 <= j < r.value ==> forms[j].id != id
    ensures r.None? ==> forall j :: 0 <= j < |forms| ==> forms[j].id != id
  {
    First(forms, (f: Form) => f.id == id)
  }

  /** The primary-key constraint. */
  ghost predicate UniqueIds(forms: seq<Form>) {
    forall i, j :: 0 <= i < j < |forms| ==> forms[i].id != forms[j].id
  }

  /** With unique ids, the form at position k is the one found by its id. */
  lemma FormIndexFinds(forms: seq<Form>, k: nat)
    requires UniqueIds(forms)
    requires k < |forms|
    ensures FormIndex(forms, forms[k].id) == Some(k)
  {
  }

  /** Replacing the form at a position, id kept, changes what its id finds
      and nothing else. */
  lemma ReplaceKeepsOthers(forms: seq<Form>, k: nat, f: Form, id: int)
    requires UniqueIds(forms)
    requires k < |forms| && f.id == forms[k].id
    ensures UniqueIds(forms[k := f])
    ensures id == f.id ==> FormIndex(forms[k := f], id) == Some(k)
    ensures id != f.id ==> FormIndex(forms[k := f], id) == FormIndex(forms, id)
  {
    var updated := forms[k := f];
    if id == f.id {
      FormIndexFinds(updated, k);
    } else {
      var a := FormIndex(forms, id);
      var b := FormIndex(updated, id);
      if a.None? {
        assert b.None?;
      } else {
        FormIndexFinds(forms, a.value);
        FormIndexFinds(updated, a.value);
      }
    }
  }

  /** Removing the form at a position makes its id unknown and leaves every
      other id finding the same form. */
  lemma RemoveKeepsOthers(forms: seq<Form>, k: nat, id: int)
    requires UniqueIds(forms)
    requires k < |forms|
    ensures UniqueIds(forms[..k] + forms[k + 1..])
    ensures id == forms[k].id ==> FormIndex(forms[..k] + forms[k + 1..], id).None?
    ensures id != forms[k].id ==>
              var a := FormIndex(forms, id);
              var b := FormIndex(forms[..k] + forms[k + 1..], id);
              (a.None? <==> b.None?) && (a.Some? ==> forms[a.value] == (forms[..k] + forms[k + 1..])[b.value])
  {
    var rest := forms[..k] + forms[k + 1..];
    assert forall j :: 0 <= j < |rest| ==> rest[j] == (if j < k then forms[j] else forms[j + 1]);
    if id != forms[k].id {
      var a := FormIndex(forms, id);
      if a.Some? {
        var j := if a.value < k then a.value else a.value - 1;
        assert rest[j] == forms[a.value];
        FormIndexFinds(rest, j);
      }
    }
  }

  class FormRepository {
    var forms: seq<Form>
    var nextId: nat

    ghost predicate Valid()
      reads this
    {
      UniqueIds(forms) && forall i :: 0 <= i < |forms| ==> forms[i].id < nextId
    }

    constructor()
      ensures Valid() && forms == []
    {
      forms := [];
      nextId := 1;
    }

    /** `get_by_id`: the stored form with that id, or None. */
    function GetById(formId: int): (r: Option<Form>)
      reads this
      ensures r.Some? ==> r.value in forms && r.value.id == formId
      ensures r.None? ==> forall f :: f in forms ==> f.id != formId
    {
      match FormIndex(forms, formId)
      case None => None
      case Some(i) => Some(forms[i])
    }

    /** `get_all`: every stored form, in table order. */
    function GetAll(): (r: seq<Form>)
      reads this
      ensures |r| == |forms| && forall f :: f in r <==> f in forms
    {
      forms
    }

    /** `create`: a form built from the whole payload, stored under a fresh
        id and found by it afterwards. */
    method Create(data: FormSchemaCreate) returns (f: Form)
      requires Valid()
      modifies this
      ensures Valid()
      ensures f == Form(old(nextId), data.name, data.description, data.fields, data.rules)
      ensures forms == old(forms) + [f] && nextId == old(nextId) + 1
      ensures GetById(f.id) == Some(f)
    {
      f := Form(nextId, data.name, data.description, data.fields, data.rules);
      forms := forms + [f];
      nextId := nextId + 1;
      FormIndexFinds(forms, |forms| - 1);
    }

    /** `update`: None and no change for an unknown id; otherwise the dumped
        items are set on the stored form one by one, which overwrites exactly
        the attributes the payload set, and no other form changes. */
    method Update(formId: int, u: FormUpdate) returns (r: Option<Form>)
      requires Valid()
      modifies this
      ensures Valid()
      ensures nextId == old(nextId)
      ensures FormIndex(old(forms), formId).None? ==> r.None? && forms == old(forms)
      ensures FormIndex(old(forms), formId).Some? ==>
                var i := FormIndex(old(forms), formId).value;
                r == Some(Overwrite(old(forms)[i], u)) && forms == old(forms)[i := r.value]
                && GetById(formId) == r
      ensures forall id :: id != formId ==> FormIndex(forms, id) == FormIndex(old(forms), id)
    {
      var found := FormIndex(forms, formId);
      if found.None? {
        return None;
      }
      var i := found.value;
      var items := UpdateItems(u);
      var form := forms[i];
      for k := 0 to |items|
        invariant form == ApplyItems(forms[i], items[..k])
      {
        assert items[..k + 1][..k] == items[..k];
        form := SetAttr(form, items[k]);
      }
      assert items[..|items|] == items;
      ApplyUpdateItems(forms[i], u);
      forall id | id != formId
        ensures FormIndex(forms[i := form], id) == FormIndex(forms, id)
      {
        ReplaceKeepsOthers(forms, i, form, id);
      }
      ReplaceKeepsOthers(forms, i, form, formId);
      forms := forms[i := form];
      r := Some(form);
    }

    /** `delete`: None and no change for an unknown id; otherwise exactly
        that form leaves the table and is returned, after which its id finds
        nothing. */
    method Delete(formId: int) returns (r: Option<Form>)
      requires Valid()
      modifies this
      ensures Valid()
      ensures nextId == old(nextId)
      ensures FormIndex(old(forms), formId).None? ==> r.None? && forms == old(forms)
      ensures FormIndex(old(forms), formId).Some? ==>
                var i := FormIndex(old(forms), formId).value;
                r == Some(old(forms)[i]) && forms == old(forms)[..i] + old(forms)[i + 1..]
                && GetById(formId).None?
      ensures forall id :: id != formId ==> GetById(id) == old(GetById(id))
    {
      var found := FormIndex(forms, formId);
      if found.None? {
        return None;
      }
      var i := found.value;
      r := Some(forms[i]);
      RemoveKeepsOthers(forms, i, formId);
      forall id | id != formId
        ensures var a := FormIndex(forms, id);
                var b := FormIndex(forms[..i] + forms[i + 1..], id);
                (a.None? <==> b.None?) && (a.Some? ==> forms[a.value] == (forms[..i] + forms[i + 1..])[b.value])
      {
        RemoveKeepsOthers(forms, i, id);
      }
      forms := forms[..i] + forms[i + 1..];
    }
  }
}
