/**
 * The role create/edit modal (src/pages/role/EditModal.jsx): the
 * role-name uniqueness rule, the choice between updating and creating on
 * submit, and the form state the modal changes in place (loading the
 * role's details, clearing the menu selection when the system changes).
 *
 * The `/roleByName` lookup, the detail fetch and the create/update calls
 * go through the transport; their replies are inputs.
 */
module RoleEditModal {
  import opened JsValues

  /** What the name validator decides. */
  datatype Verdict = Passes | Duplicate | LookupFailed(reason: JsValue)

  /** The lookup the validator sends (when it sends one) and its decision. */
  datatype NameCheck = NameCheck(lookup: Option<Record>, verdict: Verdict)

  /** `{name: value, systemId}`: the parameters of the `/roleByName` lookup. */
  function RoleByNameParams(value: JsValue, systemId: JsValue): Record
  {
    map["name" := value, "systemId" := systemId]
  }

  /** The role a lookup found: present when it resolved to a (truthy) role object. */
  function FoundRole(reply: Reply<Option<Record>>): Option<Record>
  {
    if reply.Resolved? then reply.value else None
  }

  /**
   * `checkName`: an empty name passes without a lookup; otherwise the role
   * of that name is looked up in the form's system, and the name is a
   * duplicate when the role found has exactly that name and, in edit mode,
   * a different id from the form's `id`.
   */
  function CheckName(value: JsValue, formFields: Record, isEdit: bool, reply: Reply<Option<Record>>): (c: NameCheck)
    ensures c.lookup.None? <==> !Truthy(value)
    ensures c.lookup.Some? ==> c.lookup.value == RoleByNameParams(value, Get(formFields, "systemId"))
    ensures !Truthy(value) ==> c.verdict == Passes
    ensures Truthy(value) && reply.Rejected? ==> c.verdict == LookupFailed(reply.reason)
    ensures Truthy(value) && reply == Resolved(None) ==> c.verdict == Passes
    // a found role whose name differs passes, in either mode
    ensures FoundRole(reply).Some? && Get(FoundRole(reply).value, "name") != value ==> c.verdict == Passes
    // create mode: the same name is a duplicate
    ensures Truthy(value) && !isEdit && FoundRole(reply).Some? && Get(FoundRole(reply).value, "name") == value ==>
              c.verdict == Duplicate
    // edit mode: the same name is a duplicate exactly when it belongs to another id
    ensures Truthy(value) && isEdit && FoundRole(reply).Some? && Get(FoundRole(reply).value, "name") == value ==>
              (c.verdict == Duplicate <==> Get(FoundRole(reply).value, "id") != Get(formFields, "id"))
    ensures Truthy(value) && reply.Resolved? ==> !c.verdict.LookupFailed?
    ensures c.verdict == Duplicate ==> FoundRole(reply).Some? && Get(FoundRole(reply).value, "name") == value
  {
    if !Truthy(value) then NameCheck(None, Passes)
    else
      var lookup := Some(RoleByNameParams(value, Get(formFields, "systemId")));
      match reply
      case Rejected(e) => NameCheck(lookup, LookupFailed(e))
      case Resolved(None) => NameCheck(lookup, Passes)
      case Resolved(Some(role)) =>
        var id := Get(formFields, "id");
        if isEdit && Get(role, "id") != id && Get(role, "name") == value then NameCheck(lookup, Duplicate)
        else if !isEdit && Get(role, "name") == value then NameCheck(lookup, Duplicate)
        else NameCheck(lookup, Passes)
  }

  /** Under the same lookup outcome, edit mode rejects no name that create mode accepts. */
  lemma EditModeIsNoStricter(value: JsValue, formFields: Record, reply: Reply<Option<Record>>)
    ensures CheckName(value, formFields, false, reply).verdict == Passes ==>
            CheckName(value, formFields, true, reply).verdict == Passes
    ensures CheckName(value, formFields, true, reply).lookup == CheckName(value, formFields, false, reply).lookup
  {
  }

  /** What submitting the form does, in order. */
  datatype Effect = UpdateRole(params: Record) | CreateRole(params: Record) | CallOnOk

  /**
   * `handleSubmit(values)`: a `PUT /roles` in edit mode, a `POST /roles`
   * otherwise, with a copy of the form values; `onOk` is called once, and
   * only when that request resolved.
   */
  function Submit(isEdit: bool, values: Record, reply: Reply<()>): (effects: seq<Effect>)
    ensures 1 <= |effects| <= 2
    ensures effects[0].UpdateRole? <==> isEdit
    ensures effects[0].CreateRole? <==> !isEdit
    ensures !effects[0].CallOnOk? && effects[0].params == values
    ensures CallOnOk in effects <==> reply.Resolved?
    ensures forall i :: 1 <= i < |effects| ==> effects[i] == CallOnOk
  {
    var params := values;
    var save := if isEdit then UpdateRole(params) else CreateRole(params);
    match reply
    case Resolved(_) => [save, CallOnOk]
    case Rejected(_) => [save]
  }

  /** The `/roles/:id` detail request, sent on mount only in edit mode. */
  function DetailUrl(isEdit: bool, record: Option<Record>): Option<string>
  {
    if isEdit then Some("/roles/" + ToJsString(if record.Some? then Get(record.value, "id") else Undefined)) else None
  }

  /** In edit mode, two roles with different numeric ids fetch different detail URLs: the URL identifies the role. */
  lemma DetailUrlIdentifiesRole(r1: Record, r2: Record, a: int, b: int)
    requires Get(r1, "id") == Num(a) && Get(r2, "id") == Num(b)
    ensures DetailUrl(true, Some(r1)) == DetailUrl(true, Some(r2)) <==> a == b
  {
    var prefix := "/roles/";
    var t1, t2 := ToJsString(Num(a)), ToJsString(Num(b));
    if DetailUrl(true, Some(r1)) == DetailUrl(true, Some(r2)) {
      assert prefix + t1 == prefix + t2;
      assert t1 == (prefix + t1)[|prefix|..];
      assert t2 == (prefix + t2)[|prefix|..];
      NumberTextIsInjective(a, b);
    }
  }

  /** The modal's form, whose field values the handlers change in place. */
  class RoleForm {
    var fields: Record

    /** The form starts with `initialValues={{enable: true}}`. */
    constructor ()
      ensures fields == map["enable" := Bool(true)]
    {
      fields := map["enable" := Bool(true)];
    }

    /** `form.setFieldsValue(values)`: the given fields take the given values, the others keep theirs. */
    method SetFieldsValue(values: Record)
      modifies this
      ensures fields == old(fields) + values
    {
      fields := fields + values;
    }

    /** The detail fetch's `formatResult`: nothing for an empty reply, else the role's fields fill the form. */
    method LoadDetail(res: Option<Record>)
      modifies this
      ensures res.None? ==> fields == old(fields)
      ensures res.Some? ==> fields == old(fields) + res.value
    {
      if res.Some? {
        SetFieldsValue(res.value);
      }
    }

    /**
     * Choosing a system: the control stores the new `systemId`, and its
     * `onChange` clears `menuIds`; every other field keeps its value.
     */
    method OnSystemIdChange(systemId: JsValue)
      modifies this
      ensures fields == old(fields)["systemId" := systemId]["menuIds" := Arr([])]
      ensures forall k :: k in old(fields) && k != "systemId" && k != "menuIds" ==> k in fields && fields[k] == old(fields)[k]
    {
      fields := fields["systemId" := systemId];
      SetFieldsValue(map["menuIds" := Arr([])]);
      assert fields == old(fields)["systemId" := systemId]["menuIds" := Arr([])];
    }
  }

  /** After a system change the name lookup runs in the new system and no menu stays selected. */
  method SystemChangeScenario(systemId: JsValue, value: JsValue, reply: Reply<Option<Record>>)
    returns (menuIds: JsValue, check: NameCheck)
    ensures menuIds == Arr([])
    ensures Truthy(value) ==> check.lookup == Some(RoleByNameParams(value, systemId))
  {
    var form := new RoleForm();
    form.OnSystemIdChange(systemId);
    menuIds := Get(form.fields, "menuIds");
    check := CheckName(value, form.fields, false, reply);
  }
}
