/** The properties panel of the topology editor: a four-field form filled
    from the selected node, edited one field at a time, and submitted to the
    page as an update followed by a close, or a delete. */
module NodeProperties {
  import opened Wrappers
  import opened NetworkTopology

  /** The `formData` state: label, ip, type and status. */
  datatype Form = Form(name: string, ip: string, kind: string, status: string)

  datatype Field = NameField | IpField | KindField | StatusField

  /** The callbacks the panel invokes on its page, in call order. */
  datatype Callback = OnUpdate(id: string, data: map<string, string>) | OnDelete(id: string) | OnClose

  const InitialForm := Form("", "", "server", "healthy")

  /** `data[key] || fallback`: a missing or empty value gives the fallback. */
  function ValueOr(data: map<string, string>, key: string, fallback: string): (v: string)
    ensures key in data && data[key] != "" ==> v == data[key]
    ensures key !in data || data[key] == "" ==> v == fallback
  {
    if key in data && data[key] != "" then data[key] else fallback
  }

  /** The form the panel shows for a node with data `data`: each field is
      the node's value, or the initial form's value when that is falsy. */
  function FormFromData(data: map<string, string>): (f: Form)
    ensures f.kind != "" && f.status != ""
    ensures f.name == ValueOr(data, "label", InitialForm.name)
    ensures f.ip == ValueOr(data, "ip", InitialForm.ip)
    ensures f.kind == ValueOr(data, "type", InitialForm.kind)
    ensures f.status == ValueOr(data, "status", InitialForm.status)
  {
    Form(ValueOr(data, "label", ""), ValueOr(data, "ip", ""),
         ValueOr(data, "type", "server"), ValueOr(data, "status", "healthy"))
  }

  /** The data record a submit hands to `onUpdate`. */
  function FormData(f: Form): (d: map<string, string>)
    ensures d.Keys == {"label", "ip", "type", "status"}
  {
    map["label" := f.name, "ip" := f.ip, "type" := f.kind, "status" := f.status]
  }

  /** Reading a submitted form back gives the same form, as long as its type
      and status are not empty (an empty one reads back as the default). */
  lemma FormRoundTrip(f: Form)
    requires f.kind != "" && f.status != ""
    ensures FormFromData(FormData(f)) == f
  {
  }

  /** The value of one field. */
  function FieldValue(f: Form, field: Field): string {
    match field
    case NameField => f.name
    case IpField => f.ip
    case KindField => f.kind
    case StatusField => f.status
  }

  /** `{ ...formData, [field]: value }` */
  function WithField(f: Form, field: Field, value: string): (r: Form)
    ensures FieldValue(r, field) == value
    ensures forall other :: other != field ==> FieldValue(r, other) == FieldValue(f, other)
  {
    match field
    case NameField => f.(name := value)
    case IpField => f.(ip := value)
    case KindField => f.(kind := value)
    case StatusField => f.(status := value)
  }

  /** After a submit, the page's update writes the form into every node with
      the panel's id, and that node's data reads back as the submitted form. */
  lemma SubmitReadsBack(nodes: seq<Node>, id: string, f: Form, i: nat)
    requires f.kind != "" && f.status != ""
    requires i < |nodes| && nodes[i].id == id
    ensures FormFromData(UpdateNodes(nodes, id, FormData(f))[i].data) == f
  {
    var d := UpdateNodes(nodes, id, FormData(f))[i].data;
    assert d["label"] == f.name && d["ip"] == f.ip && d["type"] == f.kind && d["status"] == f.status;
  }

  /** The panel component. */
  class PropertiesPanel {
    /** The `node` prop. */
    var node: Option<Node>
    /** The `formData` state cell. */
    var form: Form

    /** Mounting: the initial form, then the effect fills it from the node if
        there is one. */
    constructor (n: Option<Node>)
      ensures node == n
      ensures n.Some? ==> form == FormFromData(n.value.data)
      ensures n.None? ==> form == InitialForm
    {
      node := n;
      form := if n.Some? then FormFromData(n.value.data) else InitialForm;
    }

    /** A new `node` prop: the effect refills the form for a node and keeps
        the old form when the prop becomes null. */
    method SetNode(n: Option<Node>)
      modifies this
      ensures node == n
      ensures n.Some? ==> form == FormFromData(n.value.data)
      ensures n.None? ==> form == old(form)
    {
      node := n;
      if n.Some? {
        form := FormFromData(n.value.data);
      }
    }

    /** One input's `onChange`. */
    method Edit(field: Field, value: string)
      modifies this
      ensures form == WithField(old(form), field, value)
      ensures node == old(node)
    {
      form := WithField(form, field, value);
    }

    /** `if (!node) return null`: the panel shows something only for a node. */
    predicate Shown()
      reads this
    {
      node.Some?
    }

    /** `handleSubmit`: update with the form, then close. Only a shown panel
        has a form to submit. */
    method Submit() returns (calls: seq<Callback>)
      requires Shown()
      ensures calls == [OnUpdate(node.value.id, FormData(form)), OnClose]
    {
      calls := [OnUpdate(node.value.id, FormData(form)), OnClose];
    }

    /** The delete button: only `onDelete`; the page itself clears the
        selection. */
    method Delete() returns (calls: seq<Callback>)
      requires Shown()
      ensures calls == [OnDelete(node.value.id)]
    {
      calls := [OnDelete(node.value.id)];
    }
  }
}
