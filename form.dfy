/** The input form (src/components/DecisionForm.tsx): the editable list of
    options, the free-text description and constraints, the risk-tolerance
    radio group, and the submit handler that turns them into a request. */
module Form {
  import opened Types
  import opened Strings

  /** The three radio buttons. */
  datatype RiskLevel = Low | Medium | High

  function LevelName(level: RiskLevel): string {
    match level
    case Low => "Low"
    case Medium => "Medium"
    case High => "High"
  }

  predicate IsLevelName(s: string) {
    s == "Low" || s == "Medium" || s == "High"
  }

  /** The two editable fields of an option. */
  datatype OptionField = NameField | DescriptionField

  /** A new slot: `{ name: '', description: '' }`. */
  const EmptyOption: Option := Option("", Just(""))

  /** `{ ...option, [field]: value }`: the named field takes the value and
      the other field is kept. */
  function WithField(option: Option, field: OptionField, value: string): (r: Option)
    ensures field == NameField ==> r.name == value && r.description == option.description
    ensures field == DescriptionField ==> r.description == Just(value) && r.name == option.name
  {
    match field
    case NameField => option.(name := value)
    case DescriptionField => option.(description := Just(value))
  }

  /** `xs.filter((_, i) => i !== index)`: a pass over the list that drops the
      element whose position equals `index`. So it removes exactly the element
      at an index in range, and nothing for an index out of range. */
  function WithoutIndex<T>(xs: seq<T>, index: int): (r: seq<T>)
    ensures 0 <= index < |xs| ==> r == xs[..index] + xs[index + 1..]
    ensures !(0 <= index < |xs|) ==> r == xs
  {
    if |xs| == 0 then []
    else
      var rest := WithoutIndex(xs[1..], index - 1);
      assert 0 < index < |xs| ==>
        xs[..index] == [xs[0]] + xs[1..][..index - 1] && xs[index + 1..] == xs[1..][index..];
      (if index == 0 then [] else [xs[0]]) + rest
  }

  /** `lines.map(c => c.trim())`. */
  function TrimAll(lines: seq<string>): (r: seq<string>)
    ensures |r| == |lines|
    ensures forall k :: 0 <= k < |lines| ==> r[k] == Trim(lines[k])
  {
    if |lines| == 0 then [] else [Trim(lines[0])] + TrimAll(lines[1..])
  }

  predicate NonEmpty(s: string) {
    s != ""
  }

  /** `constraints.split('\n').map(c => c.trim()).filter(c => c)`. */
  function ParseConstraints(text: string): (r: seq<string>)
    ensures forall k :: 0 <= k < |r| ==> r[k] != "" && IsTrimmed(r[k])
  {
    var trimmed := TrimAll(Split(text, "\n"));
    var r := Filter(trimmed, NonEmpty);
    assert forall k :: 0 <= k < |r| ==> r[k] in trimmed by {
      forall k | 0 <= k < |r| ensures r[k] in trimmed {
        FilterMembership(trimmed, NonEmpty, r[k]);
      }
    }
    r
  }

  /** A constraint is sent iff it is a non-empty trimmed line of the text. */
  lemma ConstraintMembership(text: string, c: string)
    ensures c in ParseConstraints(text) <==>
      c != "" && exists line :: line in Split(text, "\n") && Trim(line) == c
  {
    var lines := Split(text, "\n");
    FilterMembership(TrimAll(lines), NonEmpty, c);
    TrimAllMembership(lines, c);
  }

  lemma TrimAllMembership(lines: seq<string>, c: string)
    ensures c in TrimAll(lines) <==> exists line :: line in lines && Trim(line) == c
  {
    var trimmed := TrimAll(lines);
    if c in trimmed {
      var k :| 0 <= k < |lines| && trimmed[k] == c;
      assert lines[k] in lines;
    }
    if exists line :: line in lines && Trim(line) == c {
      var line :| line in lines && Trim(line) == c;
      var k :| 0 <= k < |lines| && lines[k] == line;
      assert trimmed[k] == c;
    }
  }

  /** Constraints from two blocks of text joined by a line break are the
      constraints of the first block followed by those of the second. */
  lemma ConstraintsInOrder(first: string, second: string)
    ensures ParseConstraints(first + "\n" + second) == ParseConstraints(first) + ParseConstraints(second)
  {
    var a, b := Split(first, "\n"), Split(second, "\n");
    SplitConcat(first, "\n", second);
    TrimAllConcat(a, b);
    FilterConcat(TrimAll(a), TrimAll(b), NonEmpty);
  }

  lemma {:induction false} TrimAllConcat(a: seq<string>, b: seq<string>)
    ensures TrimAll(a + b) == TrimAll(a) + TrimAll(b)
  {
    if |a| == 0 {
      assert a + b == b;
    } else {
      assert (a + b)[1..] == a[1..] + b;
      TrimAllConcat(a[1..], b);
    }
  }

  /** A line without line breaks holds at most the one constraint it trims to. */
  lemma SingleLineConstraint(line: string)
    requires !Contains(line, "\n")
    ensures ParseConstraints(line) == if Trim(line) == "" then [] else [Trim(line)]
  {
    assert Split(line, "\n") == [line];
    assert TrimAll([line]) == [Trim(line)];
    assert [Trim(line)][1..] == [];
  }

  /** A text made only of whitespace, line breaks included, holds no constraint. */
  lemma {:induction false} BlankTextHoldsNone(blank: string)
    requires AllWhitespace(blank)
    ensures ParseConstraints(blank) == []
    decreases |blank|
  {
    if Contains(blank, "\n") {
      var head := Before(blank, "\n");
      var i := |head|;
      var tail := blank[i + 1..];
      assert blank == head + "\n" + tail by {
        assert blank[i..i + 1] == "\n";
        assert blank == blank[..i] + blank[i..i + 1] + blank[i + 1..];
      }
      assert AllWhitespace(head) by {
        forall k | 0 <= k < |head| ensures IsWhitespace(head[k]) { assert head[k] == blank[k]; }
      }
      assert AllWhitespace(tail) by {
        forall k | 0 <= k < |tail| ensures IsWhitespace(tail[k]) { assert tail[k] == blank[i + 1 + k]; }
      }
      ConstraintsInOrder(head, tail);
      SingleLineConstraint(head);
      BlankTextHoldsNone(tail);
    } else {
      SingleLineConstraint(blank);
    }
  }

  /** Blank lines between two blocks contribute nothing. */
  lemma BlankLinesDropped(first: string, blank: string, second: string)
    requires AllWhitespace(blank)
    ensures ParseConstraints(first + "\n" + blank + "\n" + second) ==
            ParseConstraints(first) + ParseConstraints(second)
  {
    var rest := blank + "\n" + second;
    assert first + "\n" + blank + "\n" + second == first + "\n" + rest;
    ConstraintsInOrder(first, rest);
    ConstraintsInOrder(blank, second);
    BlankTextHoldsNone(blank);
  }

  /** An option counts when its trimmed name is non-empty. */
  predicate HasName(option: Option) {
    Trim(option.name) != ""
  }

  /** `options.filter(o => o.name.trim())`. */
  function ValidOptions(options: seq<Option>): (r: seq<Option>)
    ensures |r| <= |options|
    ensures forall k :: 0 <= k < |r| ==> HasName(r[k])
  {
    Filter(options, HasName)
  }

  /** The outgoing options are exactly the named ones, unmodified. */
  lemma ValidOptionMembership(options: seq<Option>, o: Option)
    ensures o in ValidOptions(options) <==> o in options && Trim(o.name) != ""
  {
    FilterMembership(options, HasName, o);
  }

  /** Filtering keeps the order: on a concatenation it is the concatenation
      of the filtered halves. */
  lemma ValidOptionsInOrder(a: seq<Option>, b: seq<Option>)
    ensures ValidOptions(a + b) == ValidOptions(a) + ValidOptions(b)
  {
    FilterConcat(a, b, HasName);
  }

  /** An option whose name is blank is dropped from between two named ones. */
  lemma BlankOptionDropped(x: Option, blank: Option, y: Option)
    requires HasName(x) && HasName(y) && AllWhitespace(blank.name)
    ensures ValidOptions([x, blank, y]) == [x, y]
  {
    assert !HasName(blank);
    FilterDropsMiddle(x, blank, y, HasName);
  }

  /** `handleSubmit` on the form's fields: it produces the request passed to
      `onSubmit`, or nothing when the local guard rejects the input. */
  function SubmitFields(description: string, options: seq<Option>, constraints: string,
                        riskTolerance: string): (r: Maybe<DecisionRequest>)
    ensures r.Just? <==> description != "" && |ValidOptions(options)| >= 2
    ensures r.Just? ==>
      && r.value.description == description
      && r.value.options == ValidOptions(options)
      && r.value.constraints == ParseConstraints(constraints)
      && r.value.riskTolerance == riskTolerance
  {
    var constraintList := ParseConstraints(constraints);
    var validOptions := ValidOptions(options);
    if description == "" || |validOptions| < 2 then Nothing
    else Just(DecisionRequest(description, validOptions, constraintList, riskTolerance))
  }

  /** A description made only of spaces passes the guard: only the empty
      string is rejected. */
  lemma WhitespaceDescriptionAccepted(options: seq<Option>, constraints: string, riskTolerance: string)
    requires |ValidOptions(options)| >= 2
    ensures SubmitFields(" ", options, constraints, riskTolerance).Just?
  {
  }

  /** The form's state. `options` is replaced by `addOption` and `removeOption`
      and rebuilt slot by slot by `updateOption`. */
  class DecisionForm {
    var description: string
    var options: seq<Option>
    var constraints: string
    var riskTolerance: string

    /** The editable list never holds fewer than two slots, and the risk
        tolerance is always one of the three radio values. */
    ghost predicate Valid()
      reads this
    {
      |options| >= 2 && IsLevelName(riskTolerance)
    }

    constructor ()
      ensures Valid()
      ensures description == "" && constraints == ""
      ensures options == [EmptyOption, EmptyOption]
      ensures riskTolerance == "Medium"
    {
      description := "";
      options := [EmptyOption, EmptyOption];
      constraints := "";
      riskTolerance := "Medium";
    }

    method SetDescription(text: string)
      requires Valid()
      modifies this
      ensures Valid()
      ensures description == text
      ensures options == old(options) && constraints == old(constraints)
      ensures riskTolerance == old(riskTolerance)
    {
      description := text;
    }

    method SetConstraints(text: string)
      requires Valid()
      modifies this
      ensures Valid()
      ensures constraints == text
      ensures options == old(options) && description == old(description)
      ensures riskTolerance == old(riskTolerance)
    {
      constraints := text;
    }

    /** A radio button was chosen. */
    method SelectRiskTolerance(level: RiskLevel)
      requires Valid()
      modifies this
      ensures Valid()
      ensures riskTolerance == LevelName(level)
      ensures options == old(options) && description == old(description)
      ensures constraints == old(constraints)
    {
      riskTolerance := LevelName(level);
    }

    /** `addOption`: one empty slot more, at the end. */
    method AddOption()
      requires Valid()
      modifies this
      ensures Valid()
      ensures options == old(options) + [EmptyOption]
      ensures description == old(description) && constraints == old(constraints)
      ensures riskTolerance == old(riskTolerance)
    {
      options := options + [EmptyOption];
    }

    /** `removeOption`: only when more than two slots are present. */
    method RemoveOption(index: int)
      requires Valid()
      modifies this
      ensures Valid()
      ensures options == if |old(options)| > 2 then WithoutIndex(old(options), index) else old(options)
      ensures description == old(description) && constraints == old(constraints)
      ensures riskTolerance == old(riskTolerance)
    {
      if |options| > 2 {
        options := WithoutIndex(options, index);
      }
    }

    /** `updateOption`: copy the list, then replace one field of one slot. */
    method UpdateOption(index: int, field: OptionField, value: string)
      requires Valid() && 0 <= index < |options|
      modifies this
      ensures Valid()
      ensures |options| == |old(options)|
      ensures options[index] == WithField(old(options)[index], field, value)
      ensures forall k :: 0 <= k < |options| && k != index ==> options[k] == old(options)[k]
      ensures description == old(description) && constraints == old(constraints)
      ensures riskTolerance == old(riskTolerance)
    {
      var newOptions := options;
      newOptions := newOptions[index := WithField(newOptions[index], field, value)];
      options := newOptions;
    }

    /** The browser's check of the `required` fields: the description box
        and every option-name input must be non-empty. Until it holds, the
        submit event never reaches `handleSubmit`. */
    predicate RequiredFilled()
      reads this
    {
      description != "" && forall k :: 0 <= k < |options| ==> options[k].name != ""
    }

    /** What `handleSubmit` passes to `onSubmit`, if anything: a request
        exactly when the description is non-empty and at least two options
        are named; it carries the named options and the parsed constraints. */
    function Submission(): (r: Maybe<DecisionRequest>)
      reads this
      ensures r.Just? <==> description != "" && |ValidOptions(options)| >= 2
      ensures r.Just? ==>
        && r.value.description == description
        && r.value.options == ValidOptions(options)
        && r.value.constraints == ParseConstraints(constraints)
        && r.value.riskTolerance == riskTolerance
    {
      SubmitFields(description, options, constraints, riskTolerance)
    }
  }

  /** A request the form submits has a non-empty description, at least two
      options all with a non-blank name, trimmed non-empty constraints and a
      risk tolerance from the radio group. */
  lemma SubmittedRequestWellFormed(form: DecisionForm)
    requires form.Valid() && form.Submission().Just?
    ensures var request := form.Submission().value;
      && request.description != ""
      && |request.options| >= 2
      && (forall k :: 0 <= k < |request.options| ==> Trim(request.options[k].name) != "")
      && (forall k :: 0 <= k < |request.constraints| ==>
            request.constraints[k] != "" && IsTrimmed(request.constraints[k]))
      && IsLevelName(request.riskTolerance)
  {
  }
}
