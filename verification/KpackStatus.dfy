/** The part of kpack's status types that both kpack controllers read. */
module KpackStatus {
  import opened Common

  type Labels = map<string, string>

  datatype Condition = Condition(kind: string, status: string, reason: string, message: string)

  /** The first condition of the kind; None is kpack's nil pointer. */
  function GetCondition(conditions: seq<Condition>, kind: string): Option<Condition> {
    if conditions == [] then None
    else if conditions[0].kind == kind then Some(conditions[0])
    else GetCondition(conditions[1..], kind)
  }

  /** Position i holds the first condition of its kind. */
  ghost predicate FirstOf(conditions: seq<Condition>, kind: string, i: int) {
    0 <= i < |conditions| && conditions[i].kind == kind && forall j :: 0 <= j < i ==> conditions[j].kind != kind
  }

  /** The first condition of the kind is there and has the status. */
  ghost predicate Reports(conditions: seq<Condition>, kind: string, status: string) {
    exists i :: FirstOf(conditions, kind, i) && conditions[i].status == status
  }

  lemma {:induction false} GetConditionFindsFirst(conditions: seq<Condition>, kind: string)
    ensures forall i :: FirstOf(conditions, kind, i) ==> GetCondition(conditions, kind) == Some(conditions[i])
    ensures GetCondition(conditions, kind).Some? ==>
              exists i :: FirstOf(conditions, kind, i) && conditions[i] == GetCondition(conditions, kind).value
  {
    if conditions != [] {
      var rest := conditions[1..];
      GetConditionFindsFirst(rest, kind);
      if conditions[0].kind == kind {
        assert FirstOf(conditions, kind, 0);
      } else {
        forall i | FirstOf(conditions, kind, i) ensures FirstOf(rest, kind, i - 1) && conditions[i] == rest[i - 1] {
          assert forall j :: 0 <= j < i - 1 ==> rest[j] == conditions[j + 1];
        }
        if GetCondition(rest, kind).Some? {
          var i :| FirstOf(rest, kind, i) && rest[i] == GetCondition(rest, kind).value;
          assert forall j :: 1 <= j < i + 1 ==> conditions[j] == rest[j - 1];
          assert FirstOf(conditions, kind, i + 1) && conditions[i + 1] == rest[i];
        }
      }
    }
  }

  /** A condition is true when the first of its kind says True, and unknown when there is none or it says Unknown. */
  lemma StatusMeaning(conditions: seq<Condition>, kind: string)
    ensures IsTrue(GetCondition(conditions, kind)) <==> Reports(conditions, kind, "True")
    ensures IsUnknown(GetCondition(conditions, kind)) <==>
              Reports(conditions, kind, "Unknown") || forall c :: c in conditions ==> c.kind != kind
  {
    GetConditionFindsFirst(conditions, kind);
    var found := GetCondition(conditions, kind);
    if found.Some? {
      var i :| FirstOf(conditions, kind, i) && conditions[i] == found.value;
      assert conditions[i] in conditions;
    } else {
      NoneOfKind(conditions, kind);
    }
  }

  lemma {:induction false} NoneOfKind(conditions: seq<Condition>, kind: string)
    requires GetCondition(conditions, kind).None?
    ensures forall c :: c in conditions ==> c.kind != kind
  {
    if conditions != [] {
      NoneOfKind(conditions[1..], kind);
      assert forall c :: c in conditions <==> c == conditions[0] || c in conditions[1..];
    }
  }

  predicate IsTrue(c: Option<Condition>) {
    c.Some? && c.value.status == "True"
  }

  /** A missing condition is unknown. */
  predicate IsUnknown(c: Option<Condition>) {
    c.None? || c.value.status == "Unknown"
  }

  /** Reading an absent label yields the empty string. */
  function Label(labels: Labels, key: string): string {
    if key in labels then labels[key] else ""
  }
}
