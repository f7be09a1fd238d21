# TDMGB structural preprocessing: the DARTEL input reshape, in Dafny

The repository is one script. It segments each subject's T1-weighted image
with SPM's NewSegment and passes the grey- and white-matter images on to
SPM's DARTEL template creation. The script's intent, taken from nipype's DARTEL
template workflow, is a group template over all subjects. As wired, though,
the subject iteration (`infosource.iterables`) sits upstream of the DARTEL node
and no join node is used, so nipype runs the reshape and DARTEL once per subject.
Whether the reshape sees one subject's records or all subjects' records
depends on that engine behaviour, which the model leaves out; the model of
the reshape holds for any input list. Nearly all of the script configures
nipype nodes and external SPM/MATLAB calls. This project models the parts
that the script itself computes:

- `DartelInputs` (`dartel_inputs.dfy`): `get2classes`, the fan-in step
  between the segmentation map stage and the DARTEL stage. It takes one record
  per segmented image. Field 0 of a record is a list of grey-matter paths and
  field 1 a list of white-matter paths. It returns two lists: all grey-matter
  paths in input order, then all white-matter paths in input order. The
  method `Get2Classes` keeps the source's loop, in which two local lists grow
  by `extend`. It is proved against `Flatten(files, k)`, the in-order
  concatenation of field `k`. Lemmas about `Flatten` cover:
  - output lengths;
  - membership, in both directions;
  - index alignment when every field holds a single path;
  - fields 2 and beyond having no effect;
  - distribution over concatenation of the input.
- `Subjects` (`subjects.dfy`): the literal list of the 28 subject ids. It is
  proved to be strictly ascending in Python's string order, pairwise distinct
  and free of `/`.
- `StructTemplate` (`struct_template.dfy`): the lookup template of the
  structural image, `%s%s/%s_acq-T1w.nii`, filled with
  `(subject_id, '/ses-spespk/anat', subject_id)`. The fill is modelled as
  Python's `%` operator on `%s`/`%%` conversions, including its refusals for
  too few arguments, too many arguments and a trailing `%`. Any other
  conversion is reported as unsupported, whatever Python would raise for it.
  The template arguments resolve as follows: an argument that names an
  input (`subject_id`) is replaced by that input's value; any other
  argument is used as literal text. The filled path is
  `<id>/ses-spespk/anat/<id>_acq-T1w.nii`. `SubjectOf` recovers the subject
  from this path, so distinct subjects get distinct paths.

The reshape's own code differs from a general "fan-in aggregator" in two ways,
and the model follows the code:

- It does not reject records with differing field counts. It only needs every
  record to have at least two fields, and it ignores the rest.
- Each output list has one entry per input record only when every field holds
  exactly one path. In general, an output's length is the total number of paths
  in that field.

The two-field requirement is a `requires` clause (`HasField(dartelFiles,
WhiteMatter)`). A shorter record makes the source's `session[1]` raise
`IndexError`, and nothing in the script catches that.

## Model

| member | source | states |
|---|---|---|
| `DartelInputs.Get2Classes` | TDMGB_FMRI_NewSegment_DARTEL.py:106-113 | returns exactly two lists. The first is the in-order concatenation of field 0 over all sessions and the second that of field 1. Each has length equal to the summed path count of its field. An empty input gives `[[], []]`. Requires every session to have at least two fields |
| `DartelInputs.FlattenAppend` | TDMGB_FMRI_NewSegment_DARTEL.py:110-112 | extending over the sessions distributes over splitting the session list: flattening `a + b` is flattening `a` followed by flattening `b` |
| `DartelInputs.FlattenCount` | TDMGB_FMRI_NewSegment_DARTEL.py:110-112 | the flattened field's length is the sum, over all sessions, of the number of paths in that field |
| `DartelInputs.FlattenMembership` | TDMGB_FMRI_NewSegment_DARTEL.py:110-112 | a path is in the flattened field exactly when some session holds it in that field (both directions) |
| `DartelInputs.FlattenAligned` | TDMGB_FMRI_NewSegment_DARTEL.py:110-112 | if every session holds one path in the field, the output has one entry per session and entry `i` is `dartel_files[i][k][0]` |
| `DartelInputs.FlattenOnlyReadsField` | TDMGB_FMRI_NewSegment_DARTEL.py:111-112 | two session lists that agree on field `k` of every session give the same flattened field `k` |
| `DartelInputs.ExtraFieldsIgnored` | TDMGB_FMRI_NewSegment_DARTEL.py:108-112 | cutting every session to its first two fields changes neither output list |
| `Subjects.SubsNumbered` | TDMGB_FMRI_NewSegment_DARTEL.py:27-56 | the list has 28 entries. Each is `sub-` plus two digits, and the numbers rise strictly from each entry to the next |
| `Subjects.NumberOrderIsStringOrder` | TDMGB_FMRI_NewSegment_DARTEL.py:27-56 | for ids of the form `sub-NN`, a smaller number means an earlier id in Python string order |
| `Subjects.SubsAscendingDistinct` | TDMGB_FMRI_NewSegment_DARTEL.py:27-56 | the 28 ids are strictly ascending in string order, pairwise distinct, and contain no `/` |
| `StructTemplate.FormatArity` | TDMGB_FMRI_NewSegment_DARTEL.py:59-60 | a template made only of `%s`/`%%` conversions is filled exactly when it gets one argument per `%s`. Otherwise it fails with "not enough arguments" or "not all arguments converted" |
| `StructTemplate.FormatThree` | TDMGB_FMRI_NewSegment_DARTEL.py:59 | a template of three `%s` with `%`-free text between them yields the three arguments in order, with that text between them |
| `StructTemplate.StructFormat` | TDMGB_FMRI_NewSegment_DARTEL.py:59-60 | the field template filled with `(id, '/ses-spespk/anat', id)` is `id + '/ses-spespk/anat' + '/' + id + '_acq-T1w.nii'` |
| `StructTemplate.StructTemplateFill` | TDMGB_FMRI_NewSegment_DARTEL.py:59-60 | resolving `['subject_id', subDirAnat, 'subject_id']` against the subject input gives `[id, '/ses-spespk/anat', id]`, and filling the template with it gives the structural path |
| `StructTemplate.SubjectOf` | TDMGB_FMRI_NewSegment_DARTEL.py:59 | the leading path component contains no `/`, is a prefix of the path, and ends at the path's first `/` |
| `StructTemplate.SubjectOfStructPath` | TDMGB_FMRI_NewSegment_DARTEL.py:59-60 | a subject id without `/` is recovered from its structural path, so the path depends only on the id and determines it |
| `StructTemplate.StructPathInjective` | TDMGB_FMRI_NewSegment_DARTEL.py:59-60 | two different ids without `/` give different structural paths |
| `StructTemplate.SubsStructPathsDistinct` | TDMGB_FMRI_NewSegment_DARTEL.py:27-60 | the 28 subjects of the study all get different structural paths |

## Left out

- The nipype workflow engine is not part of this model. That covers `Workflow`, `Node`, `MapNode`, `connect`, `iterables` and `run`: graph building, per-subject expansion, map fan-out, caching and execution are library code outside the repository (lines 6, 62-64, 78-81, 99-101, 126-128, 140).
- SPM NewSegment, DARTEL and the MATLAB command setup are calls into a closed external tool (lines 16-17, 84-97, 116). They are not modelled.
- DataGrabber globbing under the data directory and DataSink writing outputs are filesystem I/O inside nipype (lines 67-75, 131-137). Only the template string and its filling are modelled, and the join of the filled path onto the data directory is left out. The rule that an argument naming an input is replaced by its value is nipype's DataGrabber behaviour; `ResolveArgs` is a plain definition of that rule, taken as an assumption and not proved.
- The tissue, channel and DARTEL iteration-parameter tuples are configuration data with no behaviour in this script (lines 87-97, 119-124). This includes floating-point values.
- Time measurement and printing are side effects only (lines 13, 107, 143). This includes the debug `print dartel_files` at the start of `get2classes`.
- Python's `list.extend` mutates local lists that no one else can see. Dafny's `seq` parameters are immutable values, so "the input list is not modified" holds by construction and is not stated as a separate contract.
- `StructTemplate.Format` models only the `%s` and `%%` conversions. Other conversion types (`%d`, `%r`, width and flag modifiers) are reported as `UnsupportedConversion` instead of being interpreted, whatever Python would raise for them (Python 2 fetches the next argument first, so `'%y' % ()` raises "not enough arguments"), because the template uses none of them.
- `DartelInputs.Get2Classes` types each session field as a list of paths. Python's `extend` also accepts a bare string and would then add its characters one by one; that case is not modelled.
