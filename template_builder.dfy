/** components/template-builder.tsx: the list of extraction templates, the
    form for a new one, and whether the form is open. Adding needs a name
    and an amount pattern; the two built-in templates cannot be deleted.

    `alert` is a side effect in the component; here the handlers return the
    message they would show. The clock (`Date.now()`) is a parameter.
 */
module TemplateBuilder {
  import opened Scan
  import opened Objects
  import Numbers

  datatype Template = Template(
    id: string,
    name: string,
    description: string,
    datePattern: string,
    amountPattern: string,
    referencePattern: string,
    paidByPattern: string,
    paidToPattern: string)

  /** The form (`newTemplate`). Every field is set from a text input, so
      each holds a string, and `field || ""` is the field itself. */
  datatype Form = Form(
    name: string,
    description: string,
    datePattern: string,
    amountPattern: string,
    referencePattern: string,
    paidByPattern: string,
    paidToPattern: string)

  const EmptyForm := Form("", "", "", "", "", "", "")

  const Mpesa := Template(
    "mpesa", "M-PESA", "M-PESA transaction pattern",
    "\\d{1,2}/\\d{1,2}/\\d{4}",
    "(?:Ksh|KES)\\s*([0-9,]+(?:\\.\\d+)?)",
    "\\b([A-Z0-9]{8,12})\\b",
    "sent\\s+by\\s+([^on]+)",
    "sent\\s+to\\s+([^on]+)")

  const Bank := Template(
    "bank", "Bank Transfer", "Generic bank transfer pattern",
    "\\d{2}-\\d{2}-\\d{4}",
    "(?:Amount|Credited?)\\s*(?:Ksh|KES|USD)?\\s*([0-9,]+(?:\\.\\d+)?)",
    "(?:Reference|Code):\\s*([A-Z0-9]{6,12})",
    "(?:From|Sender):\\s*([A-Za-z\\s]+)",
    "(?:To|Recipient):\\s*([A-Za-z\\s]+)")

  const MissingFields := "Please fill in template name and amount pattern"
  const BuiltInTemplate := "Cannot delete built-in templates"

  /** The form can be added: it has a name and an amount pattern. */
  predicate Complete(f: Form) {
    f.name != "" && f.amountPattern != ""
  }

  predicate IsBuiltIn(id: string) {
    id == "mpesa" || id == "bank"
  }

  /** The template a complete form describes, added at time `now`. */
  function FromForm(f: Form, now: nat): Template {
    Template("custom-" + Numbers.DigitsOf(now), f.name, f.description, f.datePattern,
             f.amountPattern, f.referencePattern, f.paidByPattern, f.paidToPattern)
  }

  function OtherId(id: string): Template -> bool {
    (t: Template) => t.id != id
  }

  /** A template made from the form is never a built-in, and it carries the
      form's fields unchanged. */
  lemma FromFormSpec(f: Form, now: nat)
    ensures !IsBuiltIn(FromForm(f, now).id)
    ensures var t := FromForm(f, now);
      t.name == f.name && t.amountPattern == f.amountPattern && t.description == f.description
      && t.datePattern == f.datePattern && t.referencePattern == f.referencePattern
      && t.paidByPattern == f.paidByPattern && t.paidToPattern == f.paidToPattern
  {
    var id := FromForm(f, now).id;
    assert id[0] == 'c';
  }

  /** Deleting a template that is not built in keeps the two built-ins. */
  lemma {:induction false} KeepsBuiltIns(rest: seq<Template>, id: string)
    requires !IsBuiltIn(id)
    ensures Filter([Mpesa, Bank] + rest, OtherId(id)) == [Mpesa, Bank] + Filter(rest, OtherId(id))
  {
    var keep := OtherId(id);
    assert keep(Mpesa) && keep(Bank);
    var s := [Mpesa, Bank] + rest;
    assert s[1..] == [Bank] + rest;
    assert ([Bank] + rest)[1..] == rest;
  }

  /** A delete drops every template with that id and keeps every other one,
      as often as it was there and in the order it was in; the built-ins at
      the front stay there. */
  lemma DeleteSpec(templates: seq<Template>, id: string)
    requires |templates| >= 2 && templates[0] == Mpesa && templates[1] == Bank
    requires !IsBuiltIn(id)
    ensures var r := Filter(templates, OtherId(id));
      (forall t :: multiset(r)[t] == if t.id == id then 0 else multiset(templates)[t])
      && Subsequence(r, templates)
      && |r| >= 2 && r[0] == Mpesa && r[1] == Bank
  {
    DeleteCounts(templates, id);
    FilterSubsequence(templates, OtherId(id));
    assert templates == [Mpesa, Bank] + templates[2..];
    KeepsBuiltIns(templates[2..], id);
  }

  lemma DeleteCounts(templates: seq<Template>, id: string)
    ensures var r := Filter(templates, OtherId(id));
      forall t :: multiset(r)[t] == if t.id == id then 0 else multiset(templates)[t]
  {
    FilterMultiset(templates, OtherId(id));
  }

  /** Deleting the one template with an id closes the gap it leaves: the
      templates before and after it stay as they were. */
  lemma DeleteOne(before: seq<Template>, t: Template, after: seq<Template>)
    requires forall u :: u in before + after ==> u.id != t.id
    ensures Filter(before + [t] + after, OtherId(t.id)) == before + after
  {
    assert forall u :: u in before ==> u in before + after;
    assert forall u :: u in after ==> u in before + after;
    FilterOut(before, t, after, OtherId(t.id));
  }

  /** Deleting a template just added takes the list back to what it was,
      when no earlier template shares its id. */
  lemma AddThenDelete(templates: seq<Template>, t: Template)
    requires forall u :: u in templates ==> u.id != t.id
    ensures Filter(templates + [t], OtherId(t.id)) == templates
  {
    FilterAppend(templates, [t], OtherId(t.id));
    FilterSpec(templates, OtherId(t.id));
    FilterKeepsAll(templates, OtherId(t.id));
  }

  class Builder {
    var templates: seq<Template>
    var form: Form
    var showBuilder: bool

    /** The two built-in templates stay at the front of the list. */
    ghost predicate Valid()
      reads this
    {
      |templates| >= 2 && templates[0] == Mpesa && templates[1] == Bank
    }

    constructor()
      ensures Valid()
      ensures templates == [Mpesa, Bank] && form == EmptyForm && !showBuilder
    {
      templates := [Mpesa, Bank];
      form := EmptyForm;
      showBuilder := false;
    }

    /** The form's text inputs. */
    method Edit(f: Form)
      modifies this
      ensures form == f
      ensures templates == old(templates) && showBuilder == old(showBuilder)
    {
      form := f;
    }

    /** The button that opens and closes the form. */
    method ToggleBuilder()
      modifies this
      ensures showBuilder == !old(showBuilder)
      ensures templates == old(templates) && form == old(form)
    {
      showBuilder := !showBuilder;
    }

    /** `handleAddTemplate`: an incomplete form changes nothing and raises an
      alert; a complete one is appended as a template, and the form is
      emptied and closed. */
    method AddTemplate(now: nat) returns (alert: Option<string>)
      requires Valid()
      modifies this
      ensures Valid()
      ensures !Complete(old(form)) ==>
        alert == Some(MissingFields)
        && templates == old(templates) && form == old(form) && showBuilder == old(showBuilder)
      ensures Complete(old(form)) ==>
        alert == None
        && templates == old(templates) + [FromForm(old(form), now)]
        && form == EmptyForm && !showBuilder
    {
      if !Complete(form) {
        return Some(MissingFields);
      }
      templates := templates + [FromForm(form, now)];
      form := EmptyForm;
      showBuilder := false;
      alert := None;
    }

    /** `handleDeleteTemplate(id)`: a built-in is refused with an alert;
      any other id removes the templates that carry it. */
    method DeleteTemplate(id: string) returns (alert: Option<string>)
      requires Valid()
      modifies this
      ensures Valid()
      ensures IsBuiltIn(id) ==> alert == Some(BuiltInTemplate) && templates == old(templates)
      ensures !IsBuiltIn(id) ==> alert == None && templates == Filter(old(templates), OtherId(id))
      ensures form == old(form) && showBuilder == old(showBuilder)
    {
      if IsBuiltIn(id) {
        return Some(BuiltInTemplate);
      }
      DeleteSpec(templates, id);
      templates := Filter(templates, OtherId(id));
      alert := None;
    }
  }
}
