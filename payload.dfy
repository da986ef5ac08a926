/** `src/parse/payload.rs`: the search-query translator, which renders a tree
    of AND/OR/NOT groups as a parenthesised prefix expression with attribute
    names and picklist labels substituted, and the payload adapter that puts
    the resolved pieces of a payload into one output map. */
module Payload {
  import opened Strings
  import opened Results
  import opened JsonValue
  import opened Parse
  import opened Parens

  // ---------------------------------------------------------------------
  // Picklist values in query conditions

  const NotFoundPicklistLabel: string := "not_found_picklist_label"

  /** The fallback for a picklist value that is neither a string nor an
      array. The source never formats it, so the placeholder stays in the
      text: "picklist value is {option_id_value:#?}, which is not implemented yet." */
  const UnsupportedPicklistValue: string := "picklist value is " + "{option_id_value:#?}" + ", which is not implemented yet."

  /** The label of one option id: the name of the first option with that id,
      or the sentinel. A value that is not a string equals no option id. */
  function PicklistLabel(oa: ObjectAttribute, v: Json): (r: Json)
    ensures forall i :: v.Str? && IsFirstMatch(oa.picklistOptions, v.s, i) ==> r == Str(oa.picklistOptions[i].name)
    ensures !v.Str? || NoMatch(oa.picklistOptions, v.s) ==> r == Str(NotFoundPicklistLabel)
  {
    var found := if v.Str? then FindOption(oa.picklistOptions, v.s) else None;
    match found
    case Some(option) => Str(option.name)
    case None => Str(NotFoundPicklistLabel)
  }

  /** `process_picklist_oa_value`: a string is looked up, an array is looked
      up element by element, anything else becomes the fixed fallback text. */
  function ProcessPicklistOaValue(oa: ObjectAttribute, value: Json): (r: Json)
    ensures r.Str? || r.Arr?
    ensures value.Str? ==> r == PicklistLabel(oa, value)
    ensures value.Arr? ==> r.Arr? && |r.items| == |value.items|
    ensures value.Arr? ==> forall i :: 0 <= i < |value.items| ==> r.items[i] == PicklistLabel(oa, value.items[i])
    ensures !value.Str? && !value.Arr? ==> r == Str(UnsupportedPicklistValue)
  {
    match value
    case Str(_) => PicklistLabel(oa, value)
    case Arr(xs) => Arr(seq(|xs|, i requires 0 <= i < |xs| => PicklistLabel(oa, xs[i])))
    case _ => Str(UnsupportedPicklistValue)
  }

  /** An array is translated as if each element had been given on its own,
      except that elements that are not strings become the sentinel. */
  lemma PicklistArrayElementwise(oa: ObjectAttribute, xs: seq<Json>, i: int)
    requires 0 <= i < |xs|
    ensures xs[i].Str? ==> ProcessPicklistOaValue(oa, Arr(xs)).items[i] == ProcessPicklistOaValue(oa, xs[i])
    ensures !xs[i].Str? ==> ProcessPicklistOaValue(oa, Arr(xs)).items[i] == Str(NotFoundPicklistLabel)
  {
  }

  /** Every translated label is either an option name of the attribute or
      one of the two fixed texts. */
  lemma PicklistLabelsFromOptions(oa: ObjectAttribute, value: Json)
    ensures var r := ProcessPicklistOaValue(oa, value);
      r.Str? ==> (exists i :: 0 <= i < |oa.picklistOptions| && r.s == oa.picklistOptions[i].name)
                 || r.s == NotFoundPicklistLabel || r.s == UnsupportedPicklistValue
  {
    var r := ProcessPicklistOaValue(oa, value);
    if value.Str? && !NoMatch(oa.picklistOptions, value.s) {
      var o := FindOption(oa.picklistOptions, value.s);
      var i :| IsFirstMatch(oa.picklistOptions, value.s, i) && oa.picklistOptions[i] == o.value;
      assert r.s == oa.picklistOptions[i].name;
    }
  }

  // ---------------------------------------------------------------------
  // Operator tokens

  function GroupOperatorToken(op: GroupOperator): string
  {
    match op
    case And => "AND"
    case Or => "OR"
    case Not => "NOT"
  }

  /** The fixed table of condition operator tokens. */
  function ConditionOperatorToken(op: ConditionOperator): string
  {
    match op
    case Equal => "equal"
    case NotEqual => "not_equal"
    case Contain => "contain"
    case NotContain => "not_contain"
    case IsPresent => "is_present"
    case IsBlank => "is_blank"
    case Greater => "greater_than"
    case GreaterOrEqual => "greater_than_equal"
    case Less => "less_than"
    case LessOrEqual => "less_than_equal"
    case Between => "between"
    case Today => "today"
    case BeforeToday => "before_today"
    case AfterToday => "after_today"
    case ThisWeek => "this_week"
    case BeforeThisWeek => "before_this_week"
    case AfterThisWeek => "after_this_week"
    case ThisMonth => "this_month"
    case BeforeThisMonth => "before_this_month"
    case AfterThisMonth => "after_this_month"
    case ThisQuarter => "this_quarter"
    case BeforeThisQuarter => "before_this_quarter"
    case AfterThisQuarter => "after_this_quarter"
    case ThisYear => "this_year"
    case BeforeThisYear => "before_this_year"
    case AfterThisYear => "after_this_year"
    case AnyOf => "any_of"
    case NoneOf => "none_of"
    case IsTrue => "is_true"
    case IsFalse => "is_false"
    case Address => "address"
  }

  /** Reading a token back, dispatching on its first letter: the inverse of
      the table, used to show that no two operators share a token. */
  function ConditionOperatorOfToken(s: string): Option<ConditionOperator>
  {
    if s == [] then None
    else match s[0]
      case 'a' =>
        if s == "after_today" then Some(AfterToday)
        else if s == "after_this_week" then Some(AfterThisWeek)
        else if s == "after_this_month" then Some(AfterThisMonth)
        else if s == "after_this_quarter" then Some(AfterThisQuarter)
        else if s == "after_this_year" then Some(AfterThisYear)
        else if s == "any_of" then Some(AnyOf)
        else if s == "address" then Some(ConditionOperator.Address)
        else None
      case 'b' =>
        if s == "between" then Some(Between)
        else if s == "before_today" then Some(BeforeToday)
        else if s == "before_this_week" then Some(BeforeThisWeek)
        else if s == "before_this_month" then Some(BeforeThisMonth)
        else if s == "before_this_quarter" then Some(BeforeThisQuarter)
        else if s == "before_this_year" then Some(BeforeThisYear)
        else None
      case 'c' =>
        if s == "contain" then Some(Contain)
        else None
      case 'e' =>
        if s == "equal" then Some(Equal)
        else None
      case 'g' =>
        if s == "greater_than" then Some(Greater)
        else if s == "greater_than_equal" then Some(GreaterOrEqual)
        else None
      case 'i' =>
        if s == "is_present" then Some(IsPresent)
        else if s == "is_blank" then Some(IsBlank)
        else if s == "is_true" then Some(IsTrue)
        else if s == "is_false" then Some(IsFalse)
        else None
      case 'l' =>
        if s == "less_than" then Some(Less)
        else if s == "less_than_equal" then Some(LessOrEqual)
        else None
      case 'n' =>
        if s == "not_equal" then Some(NotEqual)
        else if s == "not_contain" then Some(NotContain)
        else if s == "none_of" then Some(NoneOf)
        else None
      case 't' =>
        if s == "today" then Some(Today)
        else if s == "this_week" then Some(ThisWeek)
        else if s == "this_month" then Some(ThisMonth)
        else if s == "this_quarter" then Some(ThisQuarter)
        else if s == "this_year" then Some(ThisYear)
        else None
      case _ => None
  }

  lemma ATokensReadBack(op: ConditionOperator)
    requires op.AfterToday? || op.AfterThisWeek? || op.AfterThisMonth? || op.AfterThisQuarter? || op.AfterThisYear? || op.AnyOf? || op.Address?
    ensures ConditionOperatorOfToken(ConditionOperatorToken(op)) == Some(op)
  {
  }

  lemma BTokensReadBack(op: ConditionOperator)
    requires op.Between? || op.BeforeToday? || op.BeforeThisWeek? || op.BeforeThisMonth? || op.BeforeThisQuarter? || op.BeforeThisYear?
    ensures ConditionOperatorOfToken(ConditionOperatorToken(op)) == Some(op)
  {
  }

  lemma TTokensReadBack(op: ConditionOperator)
    requires op.Today? || op.ThisWeek? || op.ThisMonth? || op.ThisQuarter? || op.ThisYear?
    ensures ConditionOperatorOfToken(ConditionOperatorToken(op)) == Some(op)
  {
  }

  lemma CEGLTokensReadBack(op: ConditionOperator)
    requires op.Contain? || op.Equal? || op.Greater? || op.GreaterOrEqual? || op.Less? || op.LessOrEqual?
    ensures ConditionOperatorOfToken(ConditionOperatorToken(op)) == Some(op)
  {
  }

  lemma INTokensReadBack(op: ConditionOperator)
    requires op.IsPresent? || op.IsBlank? || op.IsTrue? || op.IsFalse? || op.NotEqual? || op.NotContain? || op.NoneOf?
    ensures ConditionOperatorOfToken(ConditionOperatorToken(op)) == Some(op)
  {
  }

  /** Every token reads back as its operator. */
  lemma ConditionOperatorTokenReadsBack(op: ConditionOperator)
    ensures ConditionOperatorOfToken(ConditionOperatorToken(op)) == Some(op)
  {
    match op
    case AfterToday | AfterThisWeek | AfterThisMonth | AfterThisQuarter | AfterThisYear | AnyOf | Address => ATokensReadBack(op);
    case Between | BeforeToday | BeforeThisWeek | BeforeThisMonth | BeforeThisQuarter | BeforeThisYear => BTokensReadBack(op);
    case Today | ThisWeek | ThisMonth | ThisQuarter | ThisYear => TTokensReadBack(op);
    case Contain | Equal | Greater | GreaterOrEqual | Less | LessOrEqual => CEGLTokensReadBack(op);
    case IsPresent | IsBlank | IsTrue | IsFalse | NotEqual | NotContain | NoneOf => INTokensReadBack(op);
  }

  /** The 31 condition tokens are pairwise distinct. */
  lemma ConditionOperatorTokenInjective(a: ConditionOperator, b: ConditionOperator)
    requires ConditionOperatorToken(a) == ConditionOperatorToken(b)
    ensures a == b
  {
    ConditionOperatorTokenReadsBack(a);
    ConditionOperatorTokenReadsBack(b);
  }

  /** The group tokens are pairwise distinct, and no group token is a
      condition token. */
  lemma OperatorTokensDistinct(g: GroupOperator, g': GroupOperator, c: ConditionOperator)
    ensures GroupOperatorToken(g) == GroupOperatorToken(g') ==> g == g'
    ensures GroupOperatorToken(g) != ConditionOperatorToken(c)
  {
  }

  // ---------------------------------------------------------------------
  // Conditions

  const NotFoundName: string := "not_found"

  /** The name shown for an attribute id: its name in the table, or the sentinel. */
  function AttributeName(id: string, t: Table): (r: string)
    ensures id in t ==> r == t[id].name
    ensures id !in t ==> r == NotFoundName
  {
    if id in t then t[id].name else NotFoundName
  }

  /** The value a condition is rendered with: translated through the
      picklist only when the attribute is known and is a picklist. */
  function ConditionValue(c: SearchQueryCondition, t: Table): (r: Option<Json>)
    ensures r.None? <==> c.value.None?
  {
    var id := c.objectAttributeId;
    if id in t && t[id].dataType == Picklist && c.value.Some? then
      Some(ProcessPicklistOaValue(t[id], c.value.value))
    else c.value
  }

  /** The arguments of a condition: the name, then the rendered value if any. */
  function ConditionArgs(c: SearchQueryCondition, t: Table): string
  {
    var name := AttributeName(c.objectAttributeId, t);
    match ConditionValue(c, t)
    case Some(v) => name + " " + Render(v)
    case None => name
  }

  /** One condition: `(op name)` without a value, `(op name value)` with one. */
  function ConditionExpr(c: SearchQueryCondition, t: Table): string
  {
    "(" + ConditionOperatorToken(c.operator) + " " + ConditionArgs(c, t) + ")"
  }

  /** `parse_search_query_conditions`: the conditions in input order, separated by single spaces. */
  function ConditionsExpr(cs: seq<SearchQueryCondition>, t: Table): string
  {
    Join(" ", seq(|cs|, i requires 0 <= i < |cs| => ConditionExpr(cs[i], t)))
  }

  /** The shape of a rendered condition, and what each part comes from. */
  lemma ConditionRendering(c: SearchQueryCondition, t: Table)
    ensures c.value.None? ==>
      ConditionExpr(c, t) == "(" + ConditionOperatorToken(c.operator) + " " + AttributeName(c.objectAttributeId, t) + ")"
    ensures c.value.Some? ==>
      ConditionExpr(c, t) == "(" + ConditionOperatorToken(c.operator) + " " + AttributeName(c.objectAttributeId, t) + " " + Render(ConditionValue(c, t).value) + ")"
    ensures c.objectAttributeId !in t ==> ConditionValue(c, t) == c.value
    ensures c.objectAttributeId in t && t[c.objectAttributeId].dataType != Picklist ==> ConditionValue(c, t) == c.value
  {
    var pre := "(" + ConditionOperatorToken(c.operator) + " ";
    var name := AttributeName(c.objectAttributeId, t);
    if c.value.Some? {
      var text := Render(ConditionValue(c, t).value);
      assert ConditionArgs(c, t) == name + " " + text;
      ConcatAssoc(pre, name + " ", text);
      ConcatAssoc(pre, name, " ");
    }
  }

  // ---------------------------------------------------------------------
  // Groups

  /** What a group's condition list adds: a space and the conditions, or
      nothing when the list is absent. */
  function ConditionsPart(g: SearchQueryGroup, t: Table): string
  {
    if g.conditions.Some? then " " + ConditionsExpr(g.conditions.value, t) else ""
  }

  /** A group: `(OP`, then ` conditions` when the group has a condition list,
      then ` children` when it has a child list, then `)`. */
  function GroupExpr(g: SearchQueryGroup, t: Table): string
    decreases g, 2
  {
    "(" + (GroupOperatorToken(g.operator) + ConditionsPart(g, t) + ChildrenPart(g, t)) + ")"
  }

  /** What a group's child list adds: a space and the children, or nothing
      when the list is absent. */
  function ChildrenPart(g: SearchQueryGroup, t: Table): string
    decreases g, 1
  {
    if g.children.SomeChildren? then " " + ChildrenExpr(g, t) else ""
  }

  /** `parse_search_query_children`: the child groups of `parent` in input
      order, separated by single spaces. */
  function ChildrenExpr(parent: SearchQueryGroup, t: Table): string
    requires parent.children.SomeChildren?
    decreases parent, 0
  {
    var cs := parent.children.groups;
    Join(" ", seq(|cs|, i requires 0 <= i < |cs| => GroupExpr(cs[i], t)))
  }

  /** The list `parse_search_query_group` joins: the operator, then the
      conditions text if the group has a condition list, then the children
      text if it has a child list. */
  function GroupParts(g: SearchQueryGroup, t: Table): seq<string>
  {
    [GroupOperatorToken(g.operator)]
    + (if g.conditions.Some? then [ConditionsExpr(g.conditions.value, t)] else [])
    + (if g.children.SomeChildren? then [ChildrenExpr(g, t)] else [])
  }

  /** Joining the parts with spaces and parenthesising gives the group text. */
  lemma GroupPartsJoined(g: SearchQueryGroup, t: Table)
    ensures "(" + Join(" ", GroupParts(g, t)) + ")" == GroupExpr(g, t)
  {
    var mid := if g.conditions.Some? then [ConditionsExpr(g.conditions.value, t)] else [];
    var tail := if g.children.SomeChildren? then [ChildrenExpr(g, t)] else [];
    JoinOptionalParts(" ", GroupOperatorToken(g.operator), mid, tail);
  }

  /** `parse_search_query_group`: pushes the operator and the condition and
      children expressions onto a growing list, then joins it with spaces
      inside parentheses. */
  method ParseSearchQueryGroup(g: SearchQueryGroup, t: Table) returns (expr: string)
    ensures expr == GroupExpr(g, t)
  {
    var parts: seq<string> := [];
    parts := parts + [GroupOperatorToken(g.operator)];
    if g.conditions.Some? {
      var condExpr := ConditionsExpr(g.conditions.value, t);
      parts := parts + [condExpr];
    }
    if g.children.SomeChildren? {
      var childrenExpr := ChildrenExpr(g, t);
      parts := parts + [childrenExpr];
    }
    expr := "(" + Join(" ", parts) + ")";
    assert parts == GroupParts(g, t);
    GroupPartsJoined(g, t);
  }

  /** A group without conditions or children is just its operator in parentheses. */
  lemma EmptyGroup(g: SearchQueryGroup, t: Table)
    requires g.conditions.None? && g.children.NoChildren?
    ensures GroupExpr(g, t) == "(" + GroupOperatorToken(g.operator) + ")"
  {
  }

  /** Every group text starts with `(` and its operator, and ends with `)`. */
  lemma GroupDelimited(g: SearchQueryGroup, t: Table)
    ensures var s := GroupExpr(g, t);
      && |s| >= 2 + |GroupOperatorToken(g.operator)|
      && s[0] == '(' && s[1..1 + |GroupOperatorToken(g.operator)|] == GroupOperatorToken(g.operator)
      && s[|s| - 1] == ')'
  {
  }

  /** `parse_search_query`: the top-level groups in input order separated by
      single spaces; it never fails. */
  function ParseSearchQuery(q: SearchQuery, t: Table): (r: Result<string>)
    ensures r.Ok?
  {
    Ok(Join(" ", seq(|q.groups|, i requires 0 <= i < |q.groups| => GroupExpr(q.groups[i], t))))
  }

  /** A query of one group is that group's text. */
  lemma SingleGroupQuery(q: SearchQuery, t: Table)
    requires |q.groups| == 1
    ensures ParseSearchQuery(q, t).value == GroupExpr(q.groups[0], t)
  {
  }

  // ---------------------------------------------------------------------
  // Nesting

  /** No attribute name and no picklist option name in the table holds a parenthesis. */
  predicate TableParenFree(t: Table)
  {
    forall id | id in t :: ParenFree(t[id].name) &&
      forall j :: 0 <= j < |t[id].picklistOptions| ==> ParenFree(t[id].picklistOptions[j].name)
  }

  /** No condition value anywhere in the group holds a parenthesis. */
  predicate GroupParenFree(g: SearchQueryGroup)
    decreases g
  {
    && (g.conditions.Some? ==>
          forall i :: 0 <= i < |g.conditions.value| ==>
            var v := g.conditions.value[i].value;
            v.Some? ==> JsonParenFree(v.value))
    && (g.children.SomeChildren? ==>
          forall i :: 0 <= i < |g.children.groups| ==> GroupParenFree(g.children.groups[i]))
  }

  lemma PicklistLabelParenFree(oa: ObjectAttribute, v: Json)
    requires forall j :: 0 <= j < |oa.picklistOptions| ==> ParenFree(oa.picklistOptions[j].name)
    ensures JsonParenFree(PicklistLabel(oa, v))
  {
    var r := PicklistLabel(oa, v);
    if v.Str? && !NoMatch(oa.picklistOptions, v.s) {
      var o := FindOption(oa.picklistOptions, v.s);
      var i :| IsFirstMatch(oa.picklistOptions, v.s, i) && oa.picklistOptions[i] == o.value;
      assert r == Str(oa.picklistOptions[i].name);
    } else {
      SentinelsParenFree();
      assert r == Str(NotFoundPicklistLabel);
    }
  }

  /** Every character comes after `)` in code order, as lower-case letters and `_` do. */
  predicate AfterParens(s: string)
  {
    forall i :: 0 <= i < |s| ==> s[i] > ')'
  }

  lemma AfterParensParenFree(s: string)
    requires AfterParens(s)
    ensures ParenFree(s)
  {
    assert forall c | c in s :: c > ')';
  }

  lemma ComparisonTokensAfterParens(op: ConditionOperator)
    requires op.Equal? || op.NotEqual? || op.Contain? || op.NotContain? || op.IsPresent? || op.IsBlank?
    ensures AfterParens(ConditionOperatorToken(op))
  {
  }

  lemma OrderTokensAfterParens(op: ConditionOperator)
    requires op.Greater? || op.GreaterOrEqual? || op.Less? || op.LessOrEqual? || op.Between?
    ensures AfterParens(ConditionOperatorToken(op))
  {
  }

  lemma DayWeekTokensAfterParens(op: ConditionOperator)
    requires op.Today? || op.BeforeToday? || op.AfterToday? || op.ThisWeek? || op.BeforeThisWeek? || op.AfterThisWeek?
    ensures AfterParens(ConditionOperatorToken(op))
  {
  }

  lemma MonthTokensAfterParens(op: ConditionOperator)
    requires op.ThisMonth? || op.BeforeThisMonth? || op.AfterThisMonth?
    ensures AfterParens(ConditionOperatorToken(op))
  {
  }

  lemma QuarterTokensAfterParens(op: ConditionOperator)
    requires op.ThisQuarter? || op.BeforeThisQuarter? || op.AfterThisQuarter?
    ensures AfterParens(ConditionOperatorToken(op))
  {
  }

  lemma YearTokensAfterParens(op: ConditionOperator)
    requires op.ThisYear? || op.BeforeThisYear? || op.AfterThisYear?
    ensures AfterParens(ConditionOperatorToken(op))
  {
  }

  lemma SetTokensAfterParens(op: ConditionOperator)
    requires op.AnyOf? || op.NoneOf? || op.IsTrue? || op.IsFalse? || op.Address?
    ensures AfterParens(ConditionOperatorToken(op))
  {
  }

  /** No operator token holds a parenthesis (split by operator family to
      keep each proof small). */
  lemma ConditionTokenAfterParens(op: ConditionOperator)
    ensures AfterParens(ConditionOperatorToken(op))
  {
    match op
    case Equal | NotEqual | Contain | NotContain | IsPresent | IsBlank => ComparisonTokensAfterParens(op);
    case Greater | GreaterOrEqual | Less | LessOrEqual | Between => OrderTokensAfterParens(op);
    case Today | BeforeToday | AfterToday | ThisWeek | BeforeThisWeek | AfterThisWeek => DayWeekTokensAfterParens(op);
    case ThisMonth | BeforeThisMonth | AfterThisMonth => MonthTokensAfterParens(op);
    case ThisQuarter | BeforeThisQuarter | AfterThisQuarter => QuarterTokensAfterParens(op);
    case ThisYear | BeforeThisYear | AfterThisYear => YearTokensAfterParens(op);
    case AnyOf | NoneOf | IsTrue | IsFalse | Address => SetTokensAfterParens(op);
  }

  lemma TokensParenFree(op: ConditionOperator, g: GroupOperator)
    ensures ParenFree(ConditionOperatorToken(op)) && ParenFree(GroupOperatorToken(g))
  {
    ConditionTokenAfterParens(op);
    AfterParensParenFree(ConditionOperatorToken(op));
    assert AfterParens(GroupOperatorToken(g));
    AfterParensParenFree(GroupOperatorToken(g));
  }

  lemma SentinelsParenFree()
    ensures ParenFree(NotFoundName) && ParenFree(NotFoundPicklistLabel)
  {
  }

  lemma FallbackParenFree()
    ensures ParenFree(UnsupportedPicklistValue)
  {
    var a, b, c := "picklist value is ", "{option_id_value:#?}", ", which is not implemented yet.";
    assert ParenFree(a);
    assert ParenFree(b);
    assert ParenFree(c);
    ConcatParenFree(a, b);
    ConcatParenFree(a + b, c);
  }

  lemma ConditionValueParenFree(c: SearchQueryCondition, t: Table)
    requires TableParenFree(t)
    requires c.value.Some? ==> JsonParenFree(c.value.value)
    ensures ConditionValue(c, t).Some? ==> JsonParenFree(ConditionValue(c, t).value)
  {
    var id := c.objectAttributeId;
    if id in t && t[id].dataType == Picklist && c.value.Some? {
      var v := c.value.value;
      var r := ProcessPicklistOaValue(t[id], v);
      if v.Arr? {
        forall i | 0 <= i < |v.items|
          ensures JsonParenFree(r.items[i])
        {
          PicklistLabelParenFree(t[id], v.items[i]);
        }
      } else if v.Str? {
        PicklistLabelParenFree(t[id], v);
      } else {
        FallbackParenFree();
        assert r == Str(UnsupportedPicklistValue);
      }
    }
  }

  lemma ConditionArgsParenFree(c: SearchQueryCondition, t: Table)
    requires TableParenFree(t)
    requires c.value.Some? ==> JsonParenFree(c.value.value)
    ensures ParenFree(ConditionArgs(c, t))
  {
    var name := AttributeName(c.objectAttributeId, t);
    SentinelsParenFree();
    assert ParenFree(name);
    if c.value.Some? {
      var text := Render(ConditionValue(c, t).value);
      ConditionValueParenFree(c, t);
      RenderParenFree(ConditionValue(c, t).value);
      ConcatParenFree(name, " ");
      ConcatParenFree(name + " ", text);
      assert ConditionArgs(c, t) == name + " " + text;
    }
  }

  lemma ConditionWrapped(c: SearchQueryCondition, t: Table)
    requires TableParenFree(t)
    requires c.value.Some? ==> JsonParenFree(c.value.value)
    ensures Wrapped(ConditionExpr(c, t))
  {
    var op := ConditionOperatorToken(c.operator);
    var args := ConditionArgs(c, t);
    TokensParenFree(c.operator, And);
    ConditionArgsParenFree(c, t);
    ConcatParenFree(op, " ");
    ConcatParenFree(op + " ", args);
    ConcatAssoc("(", op + " ", args);
    ConcatAssoc("(", op, " ");
    assert ConditionExpr(c, t) == "(" + (op + " " + args) + ")";
    ParenFreeBalanced(op + " " + args);
    Wrap(op + " " + args);
  }

  lemma ConditionsBalanced(cs: seq<SearchQueryCondition>, t: Table)
    requires TableParenFree(t)
    requires forall i :: 0 <= i < |cs| ==> cs[i].value.Some? ==> JsonParenFree(cs[i].value.value)
    ensures Balanced(ConditionsExpr(cs, t))
  {
    var parts := seq(|cs|, i requires 0 <= i < |cs| => ConditionExpr(cs[i], t));
    forall i | 0 <= i < |cs|
      ensures Balanced(parts[i])
    {
      ConditionWrapped(cs[i], t);
    }
    ParenFreeBalanced(" ");
    JoinBalanced(" ", parts);
  }

  /** With parenthesis-free names, labels and values, every group renders as
      exactly one parenthesised unit, however deeply it nests. */
  lemma {:induction false} GroupWrapped(g: SearchQueryGroup, t: Table)
    requires TableParenFree(t) && GroupParenFree(g)
    ensures Wrapped(GroupExpr(g, t))
    decreases g, 1
  {
    var op := GroupOperatorToken(g.operator);
    var conds := if g.conditions.Some? then " " + ConditionsExpr(g.conditions.value, t) else "";
    var kids := if g.children.SomeChildren? then " " + ChildrenExpr(g, t) else "";
    ParenFreeBalanced(op);
    ParenFreeBalanced(" ");
    ParenFreeBalanced("");
    if g.conditions.Some? {
      ConditionsBalanced(g.conditions.value, t);
      BalancedConcat(" ", ConditionsExpr(g.conditions.value, t));
    }
    if g.children.SomeChildren? {
      ChildrenBalanced(g, t);
      BalancedConcat(" ", ChildrenExpr(g, t));
    }
    BalancedConcat(op, conds);
    BalancedConcat(op + conds, kids);
    assert GroupExpr(g, t) == "(" + (op + conds + kids) + ")";
    Wrap(op + conds + kids);
  }

  lemma {:induction false} ChildrenBalanced(parent: SearchQueryGroup, t: Table)
    requires parent.children.SomeChildren?
    requires TableParenFree(t) && GroupParenFree(parent)
    ensures Balanced(ChildrenExpr(parent, t))
    decreases parent, 0
  {
    var cs := parent.children.groups;
    var parts := seq(|cs|, i requires 0 <= i < |cs| => GroupExpr(cs[i], t));
    forall i | 0 <= i < |cs|
      ensures Balanced(parts[i])
    {
      GroupWrapped(cs[i], t);
    }
    ParenFreeBalanced(" ");
    JoinBalanced(" ", parts);
  }

  /** The whole query text is balanced. */
  lemma QueryBalanced(q: SearchQuery, t: Table)
    requires TableParenFree(t)
    requires forall i :: 0 <= i < |q.groups| ==> GroupParenFree(q.groups[i])
    ensures Balanced(ParseSearchQuery(q, t).value)
  {
    var parts := seq(|q.groups|, i requires 0 <= i < |q.groups| => GroupExpr(q.groups[i], t));
    forall i | 0 <= i < |parts|
      ensures Balanced(parts[i])
    {
      GroupWrapped(q.groups[i], t);
    }
    ParenFreeBalanced(" ");
    JoinBalanced(" ", parts);
  }

  // ---------------------------------------------------------------------
  // Payload adapter

  /** A request payload; every part is optional. */
  datatype Payload = Payload(
    objectAttributeIds: Option<seq<string>>,
    searchQuery: Option<SearchQuery>,
    objectEntityAttributeValues: Option<map<string, Json>>)

  const ObjectAttributesKey: string := "object_attributes"
  const SearchQueryKey: string := "search_query"

  /** One entry of the `object_attributes` list: `"{name}, {id}"`. */
  function ObjectAttributeLabel(id: string, t: Table): string
  {
    AttributeName(id, t) + ", " + id
  }

  /** `parse`: inserts one output entry per payload part that is present.
      It never fails: the query translation and the conversion of the
      resolved entity to a JSON value cannot fail. */
  method ParsePayload(p: Payload, t: Table) returns (r: Result<map<string, Json>>)
    requires p.objectEntityAttributeValues.Some? ==> EntityShaped(p.objectEntityAttributeValues.value, t)
    ensures r.Ok?
    ensures r.value.Keys <= {ObjectAttributesKey, SearchQueryKey, ObjectEntityAttributeValues}
    ensures ObjectAttributesKey in r.value <==> p.objectAttributeIds.Some?
    ensures SearchQueryKey in r.value <==> p.searchQuery.Some?
    ensures ObjectEntityAttributeValues in r.value <==> p.objectEntityAttributeValues.Some?
    ensures p.objectAttributeIds.Some? ==>
      var ids := p.objectAttributeIds.value;
      var v := r.value[ObjectAttributesKey];
      && v.Arr? && |v.items| == |ids|
      && forall i :: 0 <= i < |ids| ==> v.items[i] == Str(ObjectAttributeLabel(ids[i], t))
    ensures p.searchQuery.Some? ==>
      r.value[SearchQueryKey] == Str(ParseSearchQuery(p.searchQuery.value, t).value)
    ensures p.objectEntityAttributeValues.Some? ==>
      r.value[ObjectEntityAttributeValues] == Obj(ConvertRawEntity(p.objectEntityAttributeValues.value, t))
  {
    var m: map<string, Json> := map[];
    if p.objectAttributeIds.Some? {
      var ids := p.objectAttributeIds.value;
      var labels := seq(|ids|, i requires 0 <= i < |ids| => Str(ObjectAttributeLabel(ids[i], t)));
      m := m[ObjectAttributesKey := Arr(labels)];
    }
    if p.searchQuery.Some? {
      var query := ParseSearchQuery(p.searchQuery.value, t);
      m := m[SearchQueryKey := Str(query.value)];
    }
    if p.objectEntityAttributeValues.Some? {
      var entity := ConvertRawEntity(p.objectEntityAttributeValues.value, t);
      m := m[ObjectEntityAttributeValues := Obj(entity)];
    }
    r := Ok(m);
  }

  /** A condition whose value is a string with nothing to escape renders
      with that string between plain quotes. */
  lemma PlainStringCondition(c: SearchQueryCondition, t: Table, text: string)
    requires ConditionValue(c, t) == Some(Str(text))
    requires forall i :: 0 <= i < |text| ==> !NeedsEscape(text[i])
    ensures ConditionExpr(c, t)
            == "(" + ConditionOperatorToken(c.operator) + " " + AttributeName(c.objectAttributeId, t) + " \"" + text + "\")"
  {
    var op, name := ConditionOperatorToken(c.operator), AttributeName(c.objectAttributeId, t);
    RenderPlainString(text);
    assert ConditionArgs(c, t) == name + " " + ("\"" + text + "\"");
    assert ConditionExpr(c, t) == "(" + op + " " + (name + " " + ("\"" + text + "\"")) + ")";
    assert " " + "\"" == " \"" && "\"" + ")" == "\")";
  }

  /** A group with a single condition and no child list. */
  lemma SingleConditionGroup(op: GroupOperator, c: SearchQueryCondition, t: Table)
    ensures GroupExpr(SearchQueryGroup(op, Some([c]), NoChildren), t)
            == "(" + GroupOperatorToken(op) + " " + ConditionExpr(c, t) + ")"
  {
    assert ConditionsExpr([c], t) == ConditionExpr(c, t);
  }

  /** Solver aid for `UnknownOptionScenario`: it merges the short literals
      of the expected text, which the solver does slowly in a larger context.
      It states nothing about the source. */
  lemma ScenarioLiterals()
    ensures "(" + "AND" + " " + "(" == "(AND ("
    ensures "\")" + ")" == "\"))"
  {
  }

  /** Solver aid for `UnknownOptionScenario`: the printed group, regrouped
      into the test's expected text. It states nothing about the source. */
  lemma ScenarioRegrouped(name: string, text: string)
    ensures "(" + "AND" + " " + ("(" + "equal" + " " + name + " \"" + text + "\")") + ")"
            == "(AND (" + "equal" + " " + name + " \"" + text + "\"))"
  {
    ScenarioLiterals();
  }

  /** The integration test, for any attribute id and name: an `equal`
      condition on a picklist attribute whose options do not hold the given
      option id renders with the query-path sentinel, and the id list names
      the attribute. The test data has id
      `019883f0-c110-7bc5-854e-26a7135a9ec0`, name `Type_Name` and no options,
      and expects `(AND (equal Type_Name "not_found_picklist_label"))` and
      `Type_Name, 019883f0-c110-7bc5-854e-26a7135a9ec0`. */
  lemma UnknownOptionScenario(id: string, name: string, optionId: string, t: Table)
    requires id in t && t[id].dataType == Picklist && t[id].name == name
    requires NoMatch(t[id].picklistOptions, optionId)
    ensures ObjectAttributeLabel(id, t) == name + ", " + id
    ensures var c := SearchQueryCondition(Equal, id, Some(Str(optionId)));
      ParseSearchQuery(SearchQuery([SearchQueryGroup(And, Some([c]), NoChildren)]), t).value
      == "(AND (" + "equal" + " " + name + " \"" + NotFoundPicklistLabel + "\"))"
  {
    var c := SearchQueryCondition(Equal, id, Some(Str(optionId)));
    var g := SearchQueryGroup(And, Some([c]), NoChildren);
    assert ConditionValue(c, t) == Some(Str(NotFoundPicklistLabel));
    PlainStringCondition(c, t, NotFoundPicklistLabel);
    SingleConditionGroup(And, c, t);
    SingleGroupQuery(SearchQuery([g]), t);
    ScenarioRegrouped(name, NotFoundPicklistLabel);
  }
}
