/** The per-subject lookup of the structural (T1-weighted) image: a Python
    `%`-style template filled with the subject id and the anatomical
    sub-directory of the BIDS layout. */
module StructTemplate {
  import Subjects

  /** The BIDS sub-directory holding the anatomical images of a session. */
  const SubDirAnat: string := "/ses-spespk/anat"

  /** The template of the `struct` output field. */
  const FieldTemplate: string := "%s%s/%s_acq-T1w.nii"

  /** The arguments of the template: names of inputs to substitute, or literal
      text when no input has that name. */
  const TemplateArgs: seq<string> := ["subject_id", SubDirAnat, "subject_id"]

  /** Why Python's `%` operator refuses a template and its arguments. */
  datatype FormatError =
    | NotEnoughArguments      // more `%s` than arguments
    | NotAllConverted         // more arguments than `%s`
    | IncompleteFormat        // a `%` at the very end of the template
    | UnsupportedConversion   // a conversion other than `%s` or `%%`, not interpreted

  datatype Result<T> = Ok(value: T) | Err(error: FormatError)

  function Prepend(prefix: string, r: Result<string>): Result<string>
  {
    match r
    case Ok(s) => Ok(prefix + s)
    case Err(e) => Err(e)
  }

  /** Python's `template % tuple(args)` with string arguments, restricted to the
      `%s` and `%%` conversions; the template is scanned left to right. A
      conversion other than `%s` or `%%` is reported as `UnsupportedConversion`,
      whatever Python would raise for it. */
  function Format(template: string, args: seq<string>): Result<string>
    decreases |template|
  {
    if template == [] then
      if args == [] then Ok([]) else Err(NotAllConverted)
    else if template[0] != '%' then
      Prepend([template[0]], Format(template[1..], args))
    else if |template| == 1 then
      Err(IncompleteFormat)
    else if template[1] == '%' then
      Prepend("%", Format(template[2..], args))
    else if template[1] == 's' then
      if args == [] then Err(NotEnoughArguments)
      else Prepend(args[0], Format(template[2..], args[1..]))
    else
      Err(UnsupportedConversion)
  }

  /** The template uses only the `%s` and `%%` conversions and does not end
      inside one. */
  predicate OnlyStringConversions(template: string)
    decreases |template|
  {
    if template == [] then true
    else if template[0] != '%' then OnlyStringConversions(template[1..])
    else |template| >= 2 && (template[1] == '%' || template[1] == 's')
         && OnlyStringConversions(template[2..])
  }

  /** The number of `%s` conversions in the template. */
  function Placeholders(template: string): nat
    decreases |template|
  {
    if template == [] then 0
    else if template[0] != '%' || |template| == 1 then Placeholders(template[1..])
    else if template[1] == 's' then 1 + Placeholders(template[2..])
    else Placeholders(template[2..])
  }

  /** A template of `%s`/`%%` conversions is filled exactly when it gets one
      argument per `%s`; with fewer or more it is refused with the matching
      error. */
  lemma {:induction false} FormatArity(template: string, args: seq<string>)
    requires OnlyStringConversions(template)
    ensures Format(template, args).Ok? <==> |args| == Placeholders(template)
    ensures |args| < Placeholders(template) ==> Format(template, args) == Err(NotEnoughArguments)
    ensures |args| > Placeholders(template) ==> Format(template, args) == Err(NotAllConverted)
    decreases |template|
  {
    if template == [] {
    } else if template[0] != '%' {
      FormatArity(template[1..], args);
    } else if template[1] == '%' {
      FormatArity(template[2..], args);
    } else if args != [] {
      FormatArity(template[2..], args[1..]);
    }
  }

  /** An argument names an input and is replaced by its value, or is used as
      literal text when no input has that name. */
  function ResolveArgs(names: seq<string>, inputs: map<string, string>): seq<string>
  {
    seq(|names|, i requires 0 <= i < |names| => if names[i] in inputs then inputs[names[i]] else names[i])
  }

  /** The structural image path of a subject, relative to the data directory. */
  function StructPath(subjectId: string): string
  {
    subjectId + SubDirAnat + "/" + subjectId + "_acq-T1w.nii"
  }

  /** Filling the field template with the subject's arguments gives the
      structural path: `<id>/ses-spespk/anat/<id>_acq-T1w.nii`. */
  lemma StructTemplateFill(subjectId: string)
    ensures ResolveArgs(TemplateArgs, map["subject_id" := subjectId]) == [subjectId, SubDirAnat, subjectId]
    ensures Format(FieldTemplate, ResolveArgs(TemplateArgs, map["subject_id" := subjectId]))
         == Ok(StructPath(subjectId))
  {
    var args := ResolveArgs(TemplateArgs, map["subject_id" := subjectId]);
    assert args == [subjectId, SubDirAnat, subjectId];
    StructFormat(subjectId);
  }

  /** The field template filled with the subject id, the anatomical
      sub-directory and the subject id again is the structural path. */
  lemma StructFormat(subjectId: string)
    ensures Format(FieldTemplate, [subjectId, SubDirAnat, subjectId]) == Ok(StructPath(subjectId))
  {
    FormatThree(FieldTemplate, subjectId, SubDirAnat, subjectId, "/", "_acq-T1w.nii");
  }

  /** A template of three `%s` separated by literal text puts the three
      arguments in order between that text. */
  lemma FormatThree(template: string, a: string, b: string, c: string, mid: string, tail: string)
    requires '%' !in mid && '%' !in tail
    requires template == "%s" + ("%s" + (mid + ("%s" + tail)))
    ensures Format(template, [a, b, c]) == Ok(a + b + mid + c + tail)
  {
    FormatLiteral(tail);
    FormatConversion(c, tail, []);
    assert [c] + [] == [c];
    FormatAppendLiteral(mid, "%s" + tail, [c]);
    FormatConversion(b, mid + ("%s" + tail), [c]);
    assert [b] + [c] == [b, c];
    FormatConversion(a, "%s" + (mid + ("%s" + tail)), [b, c]);
    assert [a] + [b, c] == [a, b, c];
    assert a + (b + (mid + (c + tail))) == a + b + mid + c + tail;
  }

  /** A leading `%s` takes the first argument. */
  lemma FormatConversion(arg: string, rest: string, args: seq<string>)
    ensures Format("%s" + rest, [arg] + args) == Prepend(arg, Format(rest, args))
  {
  }

  /** Leading literal text is copied in front of the rest. */
  lemma {:induction false} FormatAppendLiteral(text: string, rest: string, args: seq<string>)
    requires '%' !in text
    ensures Format(text + rest, args) == Prepend(text, Format(rest, args))
    decreases |text|
  {
    if text == [] {
      assert text + rest == rest;
      assert Prepend(text, Format(rest, args)) == Format(rest, args) by {
        match Format(rest, args) case Ok(v) => { assert text + v == v; } case Err(_) =>
      }
    } else {
      var t := text + rest;
      assert t[0] == text[0] && t[1..] == text[1..] + rest;
      assert '%' !in text[1..];
      FormatAppendLiteral(text[1..], rest, args);
      match Format(rest, args) {
        case Ok(v) => assert [text[0]] + (text[1..] + v) == text + v;
        case Err(_) =>
      }
    }
  }

  /** Text without `%` is copied unchanged when there are no arguments. */
  lemma {:induction false} FormatLiteral(text: string)
    requires '%' !in text
    ensures Format(text, []) == Ok(text)
    decreases |text|
  {
    if text != [] {
      assert '%' !in text[1..];
      FormatLiteral(text[1..]);
      assert [text[0]] + text[1..] == text;
    }
  }

  /** The subject directory at the head of a path: everything before its first
      `/`, or the whole path when it has none. */
  function SubjectOf(path: string): (s: string)
    ensures s <= path && '/' !in s
    ensures |s| < |path| ==> path[|s|] == '/'
    decreases |path|
  {
    if path == [] || path[0] == '/' then [] else [path[0]] + SubjectOf(path[1..])
  }

  /** A subject id without `/` is recovered from its structural path. */
  lemma SubjectOfStructPath(subjectId: string)
    requires '/' !in subjectId
    ensures SubjectOf(StructPath(subjectId)) == subjectId
  {
    var p := StructPath(subjectId);
    assert p[..|subjectId|] == subjectId;
    assert p[|subjectId|] == '/';
  }

  /** Subjects whose ids contain no `/` have distinct structural paths. */
  lemma StructPathInjective(a: string, b: string)
    requires '/' !in a && '/' !in b
    requires a != b
    ensures StructPath(a) != StructPath(b)
  {
    SubjectOfStructPath(a);
    SubjectOfStructPath(b);
  }

  /** Every subject of the study gets its own structural path. */
  lemma SubsStructPathsDistinct()
    ensures forall i, j :: 0 <= i < |Subjects.Subs| && 0 <= j < |Subjects.Subs| && i != j ==>
      StructPath(Subjects.Subs[i]) != StructPath(Subjects.Subs[j])
  {
    Subjects.SubsAscendingDistinct();
    forall i, j | 0 <= i < |Subjects.Subs| && 0 <= j < |Subjects.Subs| && i != j
      ensures StructPath(Subjects.Subs[i]) != StructPath(Subjects.Subs[j])
    {
      StructPathInjective(Subjects.Subs[i], Subjects.Subs[j]);
    }
  }
}
