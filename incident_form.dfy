/** The report-incident form: its initial contents, the submit guard and the tag editor.
    Tags are added trimmed and only once, and removed by value. */
module IncidentForm {
  import opened Common
  import Text
  import opened Incidents

  /** The first entries of the location and assignee pick lists. */
  const FirstLocation: string := "Hawkins Lab"
  const FirstAssignee: string := "Chief Hopper"

  /** The form as it opens: empty title, description and tags, the first location, a
      MODERATE threat and the first assignee. */
  function InitialForm(): (r: NewIncidentInput)
    ensures r.title == [] && r.description == [] && r.tags == []
    ensures r.location == FirstLocation && r.assignee == FirstAssignee
    ensures r.threatLevel == Moderate
  {
    NewIncidentInput("", "", FirstLocation, Moderate, FirstAssignee, [])
  }

  /** `handleSubmit`: the form is handed on, untrimmed, exactly when neither its title nor
      its description is blank; otherwise nothing is submitted and the form stays open. */
  function Submitted(form: NewIncidentInput): (r: Option<NewIncidentInput>)
    ensures r.Some? <==> Text.Trim(form.title) != [] && Text.Trim(form.description) != []
    ensures r.Some? ==> r.value == form
  {
    if Text.Trim(form.title) == [] || Text.Trim(form.description) == [] then None else Some(form)
  }

  /** One edit of a form field other than the tags. */
  datatype Edit =
    | Title(title: string)
    | Description(description: string)
    | Location(location: string)
    | Level(level: ThreatLevel)
    | Assignee(assignee: string)

  /** The form after an edit: that field replaced, every other field and the tags kept. */
  function Edited(form: NewIncidentInput, edit: Edit): (r: NewIncidentInput)
    ensures r.tags == form.tags
    ensures edit.Title? ==> r == form.(title := edit.title)
    ensures edit.Description? ==> r == form.(description := edit.description)
    ensures edit.Location? ==> r == form.(location := edit.location)
    ensures edit.Level? ==> r == form.(threatLevel := edit.level)
    ensures edit.Assignee? ==> r == form.(assignee := edit.assignee)
  {
    match edit
    case Title(v) => form.(title := v)
    case Description(v) => form.(description := v)
    case Location(v) => form.(location := v)
    case Level(v) => form.(threatLevel := v)
    case Assignee(v) => form.(assignee := v)
  }

  // ------------------------------------------------------------ tags

  /** A tag as the editor stores it: non-empty and without surrounding white space. */
  predicate CleanTag(tag: string)
  {
    tag != [] && !Text.IsSpace(tag[0]) && !Text.IsSpace(tag[|tag| - 1])
  }

  /** A clean tag is exactly what trimming leaves unchanged and non-empty. */
  lemma CleanTagIsTrimmed(tag: string)
    ensures CleanTag(tag) <==> tag != [] && Text.Trim(tag) == tag
  {
    if CleanTag(tag) {
      Text.TrimFixed(tag);
    }
  }

  /** The invariant of the tag list: clean tags, none of them twice. */
  predicate GoodTags(tags: seq<string>)
  {
    && (forall i :: 0 <= i < |tags| ==> CleanTag(tags[i]))
    && (forall i, j :: 0 <= i < j < |tags| ==> tags[i] != tags[j])
  }

  /** `addTag` on the list and the tag input: the trimmed input is appended and the input
      cleared when it is non-blank and not yet a tag; otherwise both stay as they were. */
  function WithTag(tags: seq<string>, input: string): (r: (seq<string>, string))
    ensures var tag := Text.Trim(input);
      if tag != [] && tag !in tags then r == (tags + [tag], "") else r == (tags, input)
  {
    var tag := Text.Trim(input);
    if tag != [] && tag !in tags then (tags + [tag], "") else (tags, input)
  }

  function NotTag(tag: string): string -> bool
  {
    (t: string) => t != tag
  }

  /** `removeTag`. */
  function WithoutTag(tags: seq<string>, tag: string): (r: seq<string>)
    ensures |r| <= |tags|
  {
    Filter(tags, NotTag(tag))
  }

  /** Adding a tag keeps the list clean and free of duplicates. */
  lemma AddTagKeepsGood(tags: seq<string>, input: string)
    requires GoodTags(tags)
    ensures GoodTags(WithTag(tags, input).0)
  {
    var tag := Text.Trim(input);
    if tag != [] && tag !in tags {
      GoodSnoc(tags, tag);
    }
  }

  /** A clean tag not yet listed can go at the end of a good list. */
  lemma GoodSnoc(tags: seq<string>, tag: string)
    requires CleanTag(tag) && tag !in tags && GoodTags(tags)
    ensures GoodTags(tags + [tag])
  {
    var r := tags + [tag];
    forall i | 0 <= i < |r|
      ensures CleanTag(r[i])
    {
      if i < |tags| {
        assert r[i] == tags[i];
      }
    }
    forall i, j | 0 <= i < j < |r|
      ensures r[i] != r[j]
    {
      assert r[i] == tags[i];
      if j < |tags| {
        assert r[j] == tags[j];
      }
    }
  }

  /** Adding a tag never drops one: the old list is a prefix of the new one. */
  lemma AddTagExtends(tags: seq<string>, input: string)
    ensures var r := WithTag(tags, input).0;
      |tags| <= |r| <= |tags| + 1 && r[..|tags|] == tags
  {
  }

  /** An added tag is a member afterwards; adding it again changes nothing but the input. */
  lemma AddTagTwice(tags: seq<string>, input: string)
    requires Text.Trim(input) != []
    ensures Text.Trim(input) in WithTag(tags, input).0
    ensures WithTag(WithTag(tags, input).0, input).0 == WithTag(tags, input).0
  {
    assert Text.Trim(input) in tags + [Text.Trim(input)];
  }

  /** Removing a tag keeps every other tag, as often as it occurred, and drops all copies of
      the removed one. */
  lemma RemoveTagCounts(tags: seq<string>, tag: string, other: string)
    ensures multiset(WithoutTag(tags, tag))[tag] == 0
    ensures other != tag ==> multiset(WithoutTag(tags, tag))[other] == multiset(tags)[other]
  {
    FilterMultiset(tags, NotTag(tag), tag);
    FilterMultiset(tags, NotTag(tag), other);
  }

  /** Removing a tag keeps the list clean and free of duplicates. */
  lemma {:induction false} RemoveTagKeepsGood(tags: seq<string>, tag: string)
    requires GoodTags(tags)
    ensures GoodTags(WithoutTag(tags, tag))
  {
    if tags != [] {
      var rest := tags[1..];
      var p := NotTag(tag);
      assert GoodTags(rest);
      RemoveTagKeepsGood(rest, tag);
      assert tags == [tags[0]] + rest;
      FilterCons(tags[0], rest, p);
      if p(tags[0]) {
        FilterMembers(rest, p);
        assert tags[0] !in rest;
        GoodCons(tags[0], Filter(rest, p));
      }
    }
  }

  /** A clean tag not yet listed can go in front of a good list. */
  lemma GoodCons(tag: string, tags: seq<string>)
    requires CleanTag(tag) && tag !in tags && GoodTags(tags)
    ensures GoodTags([tag] + tags)
  {
    var r := [tag] + tags;
    forall i | 0 <= i < |r|
      ensures CleanTag(r[i])
    {
      if i > 0 {
        assert r[i] == tags[i - 1];
      }
    }
    forall i, j | 0 <= i < j < |r|
      ensures r[i] != r[j]
    {
      assert r[j] == tags[j - 1];
      if i > 0 {
        assert r[i] == tags[i - 1];
      }
    }
  }

  /** Removing a tag that is not there changes nothing; removing one just added restores the
      list. */
  lemma RemoveAbsentTag(tags: seq<string>, tag: string)
    requires tag !in tags
    ensures WithoutTag(tags, tag) == tags
  {
    FilterAllKept(tags, NotTag(tag));
  }

  lemma AddThenRemoveTag(tags: seq<string>, input: string)
    ensures WithoutTag(WithTag(tags, input).0, Text.Trim(input)) == WithoutTag(tags, Text.Trim(input))
  {
    var tag := Text.Trim(input);
    if tag != [] && tag !in tags {
      FilterSnoc(tags, tag, NotTag(tag));
    }
  }

  /** The modal's state: the form data and the tag being typed. */
  class Form {
    var data: NewIncidentInput
    var tagInput: string

    ghost predicate Valid()
      reads this
    {
      GoodTags(data.tags)
    }

    constructor ()
      ensures data == InitialForm() && tagInput == "" && Valid()
    {
      data := InitialForm();
      tagInput := "";
    }

    /** Typing into, or choosing in, one of the other fields. */
    method EditField(edit: Edit)
      requires Valid()
      modifies this
      ensures data == Edited(old(data), edit) && tagInput == old(tagInput)
      ensures Valid()
    {
      data := Edited(data, edit);
    }

    /** Typing into the tag field. */
    method SetTagInput(text: string)
      modifies this
      ensures data == old(data) && tagInput == text
    {
      tagInput := text;
    }

    method AddTag()
      requires Valid()
      modifies this
      ensures (data.tags, tagInput) == WithTag(old(data.tags), old(tagInput))
      ensures data == old(data).(tags := data.tags)
      ensures Valid()
    {
      AddTagKeepsGood(data.tags, tagInput);
      var tag := Text.Trim(tagInput);
      if tag != [] && tag !in data.tags {
        data := data.(tags := data.tags + [tag]);
        tagInput := "";
      }
    }

    method RemoveTag(tag: string)
      requires Valid()
      modifies this
      ensures data == old(data).(tags := WithoutTag(old(data.tags), tag))
      ensures tagInput == old(tagInput)
      ensures Valid()
    {
      RemoveTagKeepsGood(data.tags, tag);
      data := data.(tags := WithoutTag(data.tags, tag));
    }

    /** `handleSubmit`: what is passed to `onSubmit`, if anything. The form is left as it is. */
    method Submit() returns (r: Option<NewIncidentInput>)
      ensures r == Submitted(data)
    {
      if Text.Trim(data.title) == [] || Text.Trim(data.description) == [] {
        return None;
      }
      return Some(data);
    }
  }
}
