/**
 The path resolver: a list of human-readable names (labels, `<id:...>`
 ids, file names, and the keywords `files`, `analyses` and `gears`) is
 walked through the hierarchy group → project → session → acquisition,
 node by node, into the matching documents and the children of the last
 one. The document store is a set of oracles.
 */
module Resolver {
  import opened Wrappers
  import Text
  import opened FileOrder

  /**
   A stored document as the resolver sees it: its id, the `name` a file
   carries, the `files` it embeds, the `container_type` tag the resolver
   adds, and `rest` standing for every other field.
   */
  datatype Doc = Doc(id: string, name: Option<string>, files: Option<seq<Doc>>, containerType: Option<string>, rest: nat)

  /** What `Resolver.resolve` is given: a JSON array of names, or anything else. */
  datatype PathInput = PathList(names: seq<string>) | NotAList

  /**
   `InputValidationException` (400), `APINotFoundException` (404), a lookup
   on a missing parent (500), or the `UnicodeEncodeError` (500) that Python 2
   raises when `str()` or `str.format` meets non-ASCII text.
   */
  datatype ResolveError = InputValidation | NotFound | NoParent | Unencodable

  /** The node classes. `Container` carries `cont_name`, `use_id` and `analyses`. */
  datatype Node =
    | Root
    | Container(contName: string, useId: bool, analyses: bool)
    | Analyses
    | Files
    | Gears

  /** How the criterion is matched: `_id` as an ObjectId, `_id` as text, or `label`. */
  datatype Query = ByObjectId(oid: string) | ById(id: string) | ByLabel(labelText: string)

  /** The projection choice: `id_only`, and whether the next element asks for files. */
  datatype Projection = Projection(idOnly: bool, fetchFiles: bool)

  /**
   The storage layer. `find` returns the first match in (created, _id)
   order under the parent, or nothing; `children` lists the named
   collection's documents under a parent (all of them when there is none).
   */
  datatype Store = Store(
    childName: string -> Option<string>,
    singular: string -> string,
    usesObjectId: string -> bool,
    isObjectId: string -> bool,
    find: (string, Query, Option<Doc>, Projection) -> Option<Doc>,
    gearById: string -> Option<Doc>,
    gearByName: string -> Option<Doc>,
    allGears: seq<Doc>,
    children: (string, Option<Doc>) -> seq<Doc>,
    analysesOf: Doc -> seq<Doc>
  )

  const IdOpen := "<id:"
  const IdClose := ">"

  /** The `<id:...>` syntax around a raw id. */
  function Idz(id: string): (r: string)
    ensures |r| == |id| + 5
  {
    IdOpen + id + IdClose
  }

  /**
   `Node.parse_criterion`: whether the element used the id syntax, and the
   criterion it names.
   */
  function ParseCriterion(value: string): (r: (bool, string))
    ensures r.0 ==> Idz(r.1) == value
    ensures !r.0 ==> r.1 == value
  {
    if Text.StartsWith(value, IdOpen) && Text.EndsWith(value, IdClose) then
      assert value[3] == ':' && value[|value| - 1] == '>' by {
        assert value[..4][3] == ':';
        assert value[|value| - 1..][0] == '>';
      }
      assert value == value[..4] + value[4..|value| - 1] + value[|value| - 1..];
      (true, value[4..|value| - 1])
    else
      (false, value)
  }

  /** Wrapping an id in the id syntax and parsing it back gives the id. */
  lemma ParseCriterionRoundTrip(id: string)
    ensures ParseCriterion(Idz(id)) == (true, id)
  {
    var v := Idz(id);
    assert v[..4] == IdOpen;
    assert v[|v| - 1..] == IdClose;
    assert v[4..|v| - 1] == id;
  }

  /** An element is read as an id exactly when it has the id syntax. */
  lemma ParseCriterionIff(value: string)
    ensures ParseCriterion(value).0 <==> exists id :: Idz(id) == value
  {
    if id :| Idz(id) == value {
      ParseCriterionRoundTrip(id);
    }
  }

  /** `get_parent`: the last resolved document, if any. */
  function Parent(pathOut: seq<Doc>): (r: Option<Doc>)
    ensures r.None? <==> |pathOut| == 0
    ensures r.Some? ==> r.value == pathOut[|pathOut| - 1]
  {
    if |pathOut| == 0 then None else Some(pathOut[|pathOut| - 1])
  }

  /** `apply_container_type`: tag every document with `t`. */
  function TagAll(docs: seq<Doc>, t: string): (r: seq<Doc>)
    ensures |r| == |docs|
    ensures forall i :: 0 <= i < |r| ==> r[i] == docs[i].(containerType := Some(t))
  {
    if |docs| == 0 then [] else TagAll(docs[..|docs| - 1], t) + [docs[|docs| - 1].(containerType := Some(t))]
  }

  /** The sort key of a file, `f.get('name', '')`: its name, or the empty text when it has none. */
  function NameKey(f: Doc): string {
    f.name.GetOr("")
  }

  /** Whether `str(f.get('name', ''))` succeeds: the name, if any, is ASCII. */
  predicate NameEncodes(f: Doc) {
    f.name.None? || Text.IsAscii(f.name.value)
  }

  lemma {:induction false} TagAllWithKey(docs: seq<Doc>, t: string, k: string)
    ensures WithKey(TagAll(docs, t), NameKey, k) == TagAll(WithKey(docs, NameKey, k), t)
  {
    if |docs| > 0 {
      var init := docs[..|docs| - 1];
      TagAllWithKey(init, t, k);
      assert TagAll(docs, t)[..|docs| - 1] == TagAll(init, t);
    }
  }

  /** The files taken out of a container, and the container left behind. */
  datatype Popped = Popped(files: seq<Doc>, container: Option<Doc>)

  /**
   `FilesNode.pop_files`: no container gives no files; otherwise its `files`
   (none when absent) are removed from it, sorted by name and tagged as files.
   */
  function PopFiles(container: Option<Doc>): (r: Popped)
    ensures container.None? ==> r == Popped([], None)
    ensures container.Some? ==> r.container == Some(container.value.(files := None))
    ensures container.Some? ==> |r.files| == |container.value.files.GetOr([])|
    ensures SortedBy(r.files, NameKey)
    ensures forall i :: 0 <= i < |r.files| ==> r.files[i].containerType == Some("file")
    ensures container.Some? ==> forall k ::
      WithKey(r.files, NameKey, k) == TagAll(WithKey(container.value.files.GetOr([]), NameKey, k), "file")
  {
    match container
    case None => Popped([], None)
    case Some(c) =>
      var files := c.files.GetOr([]);
      var sorted := SortByKey(files, NameKey);
      PopFilesStable(files);
      TagAllSorted(sorted, "file");
      assert |sorted| == |files| by {
        assert |multiset(sorted)| == |multiset(files)|;
      }
      Popped(TagAll(sorted, "file"), Some(c.(files := None)))
  }

  lemma PopFilesStable(files: seq<Doc>)
    ensures forall k :: WithKey(TagAll(SortByKey(files, NameKey), "file"), NameKey, k) == TagAll(WithKey(files, NameKey, k), "file")
  {
    forall k
      ensures WithKey(TagAll(SortByKey(files, NameKey), "file"), NameKey, k) == TagAll(WithKey(files, NameKey, k), "file")
    {
      TagAllWithKey(SortByKey(files, NameKey), "file", k);
      SortByKeyStable(files, NameKey, k);
    }
  }

  lemma TagAllSorted(docs: seq<Doc>, t: string)
    requires SortedBy(docs, NameKey)
    ensures SortedBy(TagAll(docs, t), NameKey)
  {
    var r := TagAll(docs, t);
    forall i, j | 0 <= i < j < |r|
      ensures Text.StrLe(NameKey(r[i]), NameKey(r[j]))
    {
      assert NameKey(r[i]) == NameKey(docs[i]) && NameKey(r[j]) == NameKey(docs[j]);
    }
  }

  /** Replace the last resolved document with `c` (the document `pop_files` altered in place). */
  function WithParent(pathOut: seq<Doc>, c: Option<Doc>): (r: seq<Doc>)
    ensures |r| == |pathOut|
    ensures c.Some? && |pathOut| > 0 ==> r[..|pathOut| - 1] == pathOut[..|pathOut| - 1] && r[|pathOut| - 1] == c.value
    ensures c.None? ==> r == pathOut
  {
    if c.Some? && |pathOut| > 0 then pathOut[..|pathOut| - 1] + [c.value] else pathOut
  }

  /**
   The loop of `FilesNode.next` over the listing: each file's name goes
   through `str()` before it is compared, so a name that does not encode
   raises before any later file is looked at. The result is the position of
   the first file with the name, or none.
   */
  function FindFile(files: seq<Doc>, name: string): (r: Result<Option<nat>, ResolveError>)
    ensures r.Failure? ==> r.error == Unencodable
    ensures r.Success? && r.value.Some? ==>
      && r.value.value < |files|
      && NameKey(files[r.value.value]) == name
      && (forall j :: 0 <= j <= r.value.value ==> NameEncodes(files[j]))
      && (forall j :: 0 <= j < r.value.value ==> NameKey(files[j]) != name)
    ensures r == Success(None) ==> forall j :: 0 <= j < |files| ==> NameEncodes(files[j]) && NameKey(files[j]) != name
    ensures r.Failure? ==> exists i :: 0 <= i < |files| && !NameEncodes(files[i]) && forall j :: 0 <= j < i ==> NameKey(files[j]) != name
  {
    if |files| == 0 then Success(None)
    else if !NameEncodes(files[0]) then Failure(Unencodable)
    else if NameKey(files[0]) == name then Success(Some(0))
    else
      var found :- FindFile(files[1..], name);
      match found
      case None => Success(None)
      case Some(i) => Success(Some(i + 1))
  }

  /** What one `next` call leaves: the unconsumed names, the resolved documents, and the next node. */
  datatype Stepped = Stepped(rest: seq<string>, out: seq<Doc>, next: Option<Node>)

  /** `RootNode.next`: `gears` leads to the gears node; anything else is a group, left unconsumed. */
  function RootStep(pathIn: seq<string>, pathOut: seq<Doc>): (r: Stepped)
    requires |pathIn| > 0
    ensures pathIn[0] == "gears" ==> r == Stepped(pathIn[1..], pathOut, Some(Gears))
    ensures pathIn[0] != "gears" ==> r == Stepped(pathIn, pathOut, Some(Container("groups", true, false)))
  {
    if pathIn[0] == "gears" then Stepped(pathIn[1..], pathOut, Some(Gears))
    else Stepped(pathIn, pathOut, Some(Container("groups", true, false)))
  }

  /**
   The error of a lookup that found nothing: its message formats the
   criterion into a byte string, which raises for non-ASCII text.
   */
  function NotFoundFor(criterion: string): ResolveError {
    if Text.IsAscii(criterion) then NotFound else Unencodable
  }

  /** The gear an element names: looked up by id with the id syntax, by name otherwise. */
  function GearNamed(store: Store, element: string): Option<Doc> {
    var (isId, criterion) := ParseCriterion(element);
    if isId then store.gearById(criterion) else store.gearByName(criterion)
  }

  /** `GearsNode.next`: the named gear is appended, tagged `gear`, and the walk ends there. */
  function GearsStep(store: Store, pathIn: seq<string>, pathOut: seq<Doc>): (r: Result<Stepped, ResolveError>)
    requires |pathIn| > 0
    ensures r.Success? <==> GearNamed(store, pathIn[0]).Some?
    ensures r.Failure? ==> r.error == NotFoundFor(ParseCriterion(pathIn[0]).1)
    ensures r.Success? ==> r.value.rest == pathIn[1..] && r.value.next.None?
    ensures r.Success? ==> |r.value.out| == |pathOut| + 1 && r.value.out[..|pathOut|] == pathOut
    ensures r.Success? ==> r.value.out[|pathOut|] == GearNamed(store, pathIn[0]).value.(containerType := Some("gear"))
  {
    match GearNamed(store, pathIn[0])
    case None => Failure(NotFoundFor(ParseCriterion(pathIn[0]).1))
    case Some(g) => Success(Stepped(pathIn[1..], pathOut + [g.(containerType := Some("gear"))], None))
  }

  /**
   `FilesNode.next`: the first of the parent's files (in listing order)
   whose name is the element is appended, and the walk ends there; the
   parent is left without its `files`. A file name before it that does not
   encode as ASCII raises instead.
   */
  function FilesStep(pathIn: seq<string>, pathOut: seq<Doc>): (r: Result<Stepped, ResolveError>)
    requires |pathIn| > 0
    ensures var listing := PopFiles(Parent(pathOut)).files;
      r.Success? <==> exists i :: 0 <= i < |listing| && NameKey(listing[i]) == pathIn[0] && forall j :: 0 <= j <= i ==> NameEncodes(listing[j])
    ensures var listing := PopFiles(Parent(pathOut)).files;
      r == Failure(NotFound) <==> forall j :: 0 <= j < |listing| ==> NameEncodes(listing[j]) && NameKey(listing[j]) != pathIn[0]
    ensures r.Failure? ==> r.error in {NotFound, Unencodable}
    ensures r.Success? ==>
      && r.value.rest == pathIn[1..]
      && r.value.next.None?
      && |pathOut| > 0
      && |r.value.out| == |pathOut| + 1
      && r.value.out[..|pathOut|] == WithParent(pathOut, PopFiles(Parent(pathOut)).container)
    ensures r.Success? ==>
      var f := r.value.out[|pathOut|];
      && NameKey(f) == pathIn[0]
      && f.containerType == Some("file")
  {
    var listing := PopFiles(Parent(pathOut)).files;
    var found := FindFile(listing, pathIn[0]);
    match found
    case Failure(e) => Failure(e)
    case Success(None) => Failure(NotFound)
    case Success(Some(i)) =>
      var out := WithParent(pathOut, PopFiles(Parent(pathOut)).container) + [listing[i]];
      assert out[..|pathOut|] == WithParent(pathOut, PopFiles(Parent(pathOut)).container);
      Success(Stepped(pathIn[1..], out, None))
  }

  /**
   The match condition of `ContainerNode.next`: `_id` when the element used
   the id syntax or the node always resolves by id, converted to an ObjectId
   when the collection uses them (a malformed one is rejected); `label`
   otherwise.
   */
  function CriterionQuery(store: Store, contName: string, isId: bool, useId: bool, criterion: string): (r: Result<Query, ResolveError>)
    ensures r.Failure? <==> (isId || useId) && store.usesObjectId(contName) && !store.isObjectId(criterion)
    ensures r.Failure? ==> r.error == InputValidation
    ensures r.Success? ==> (r.value.ByLabel? <==> !isId && !useId)
    ensures r.Success? ==> (r.value.ByObjectId? <==> (isId || useId) && store.usesObjectId(contName))
    ensures r.Success? ==> match r.value
      case ByObjectId(v) => v == criterion
      case ById(v) => v == criterion
      case ByLabel(v) => v == criterion
  {
    if isId || useId then
      if store.usesObjectId(contName) then
        if store.isObjectId(criterion) then Success(ByObjectId(criterion)) else Failure(InputValidation)
      else Success(ById(criterion))
    else Success(ByLabel(criterion))
  }

  /**
   `ContainerNode.next`: resolve one child of the parent by the element,
   append it tagged with the singular collection name, then choose the next
   node from the element after it: `files` (or nothing at all) leads to the
   files node, `analyses` to the analyses node when this node lists them,
   anything else to the child collection when there is one.
   */
  function ContainerStep(store: Store, idOnly: bool, contName: string, useId: bool, analyses: bool, pathIn: seq<string>, pathOut: seq<Doc>): (r: Result<Stepped, ResolveError>)
    requires |pathIn| > 0
    ensures var (isId, criterion) := ParseCriterion(pathIn[0]);
      r == Failure(InputValidation) <==> CriterionQuery(store, contName, isId, useId, criterion).Failure?
    ensures r.Failure? ==> r.error in {InputValidation, NotFound, Unencodable}
    ensures r.Success? ==>
      && |r.value.out| == |pathOut| + 1
      && r.value.out[..|pathOut|] == pathOut
      && r.value.out[|pathOut|].containerType == Some(store.singular(contName))
    ensures var (isId, criterion) := ParseCriterion(pathIn[0]);
      var q := CriterionQuery(store, contName, isId, useId, criterion);
      q.Success? ==>
        var found := store.find(contName, q.value, Parent(pathOut), Projection(idOnly, |pathIn| == 1 || pathIn[1] == "files"));
        && (r.Success? <==> found.Some?)
        && (found.None? ==> r == Failure(NotFoundFor(criterion)))
        && (found.Some? ==> r.value.out[|pathOut|] == found.value.(containerType := Some(store.singular(contName))))
    ensures r.Success? && |pathIn| == 1 ==> r.value.rest == [] && r.value.next.None?
    ensures r.Success? && |pathIn| > 1 ==>
      if pathIn[1] == "files" then r.value.rest == pathIn[2..] && r.value.next == Some(Files)
      else if pathIn[1] == "analyses" && analyses then r.value.rest == pathIn[2..] && r.value.next == Some(Analyses)
      else r.value.rest == pathIn[1..] && match store.childName(contName)
        case Some(child) => r.value.next == Some(Container(child, false, true))
        case None => r.value.next.None?
  {
    var (isId, criterion) := ParseCriterion(pathIn[0]);
    var rest := pathIn[1..];
    var fetchFiles := |rest| == 0 || rest[0] == "files";
    var query :- CriterionQuery(store, contName, isId, useId, criterion);
    match store.find(contName, query, Parent(pathOut), Projection(idOnly, fetchFiles))
    case None => Failure(NotFoundFor(criterion))
    case Some(found) =>
      var out := pathOut + [found.(containerType := Some(store.singular(contName)))];
      if |rest| == 0 then Success(Stepped(rest, out, None))
      else if fetchFiles then Success(Stepped(rest[1..], out, Some(Files)))
      else if rest[0] == "analyses" && analyses then Success(Stepped(rest[1..], out, Some(Analyses)))
      else match store.childName(contName)
        case Some(child) => Success(Stepped(rest, out, Some(Container(child, false, true))))
        case None => Success(Stepped(rest, out, None))
  }

  /** `node.next(path_in, path_out, id_only)`. */
  function Step(store: Store, idOnly: bool, node: Node, pathIn: seq<string>, pathOut: seq<Doc>): (r: Result<Stepped, ResolveError>)
    requires |pathIn| > 0
    ensures r.Success? ==> r.value.next != Some(Root)
    ensures r.Success? ==> SuffixOf(r.value.rest, pathIn)
    ensures r.Success? && node.Root? ==>
      && r.value.out == pathOut
      && r.value.next.Some?
      && (r.value.next == Some(Gears) || (r.value.next.value.Container? && r.value.rest == pathIn))
    ensures r.Success? && !node.Root? ==> |r.value.rest| < |pathIn| && |r.value.out| == |pathOut| + 1
    ensures r == Failure(NoParent) ==> node.Analyses? && |pathOut| == 0
  {
    match node
    case Root => Success(RootStep(pathIn, pathOut))
    case Gears => GearsStep(store, pathIn, pathOut)
    case Files => FilesStep(pathIn, pathOut)
    case Container(contName, useId, analyses) => ContainerStep(store, idOnly, contName, useId, analyses, pathIn, pathOut)
    case Analyses =>
      // `list_analyses` reads the parent's type and id.
      if |pathOut| == 0 then Failure(NoParent)
      else ContainerStep(store, idOnly, "analyses", false, false, pathIn, pathOut)
  }

  /** `rest` is what is left of `path` after some elements were taken from its front. */
  predicate SuffixOf(rest: seq<string>, path: seq<string>) {
    |rest| <= |path| && rest == path[|path| - |rest|..]
  }

  lemma SuffixOfTransitive(a: seq<string>, b: seq<string>, c: seq<string>)
    requires SuffixOf(a, b) && SuffixOf(b, c)
    ensures SuffixOf(a, c)
  {
    assert c[|c| - |b|..][|b| - |a|..] == c[|c| - |a|..];
  }

  /** Where the walk stopped: the last node, the names it did not consume, and the resolved documents. */
  datatype Walked = Walked(node: Node, rest: seq<string>, out: seq<Doc>)

  /**
   The loop of `Resolver.resolve`: step until a node returns no successor
   or the names run out.
   */
  function Walk(store: Store, idOnly: bool, node: Node, pathIn: seq<string>, pathOut: seq<Doc>): (r: Result<Walked, ResolveError>)
    decreases |pathIn|, if node.Root? then 1 else 0
    ensures r.Success? ==> SuffixOf(r.value.rest, pathIn)
    ensures r.Success? ==> |r.value.out| >= |pathOut|
  {
    if |pathIn| == 0 then Success(Walked(node, pathIn, pathOut))
    else
      var s :- Step(store, idOnly, node, pathIn, pathOut);
      match s.next
      case None => Success(Walked(node, s.rest, s.out))
      case Some(n) =>
        var w :- Walk(store, idOnly, n, s.rest, s.out);
        SuffixOfTransitive(w.rest, s.rest, pathIn);
        Success(w)
  }

  /** The result of a resolution: the resolved documents and the children of the last one. */
  datatype Resolution = Resolution(path: seq<Doc>, children: seq<Doc>)

  /** Every document carries the container type the resolver tagged it with. */
  predicate AllTagged(docs: seq<Doc>) {
    forall i :: 0 <= i < |docs| ==> docs[i].containerType.Some?
  }

  /** The child containers `get_container_children` lists under `parent`, tagged with their kind. */
  function ContainerKids(store: Store, contName: string, parent: Option<Doc>): (r: seq<Doc>)
    ensures AllTagged(r)
  {
    match store.childName(contName)
    case Some(child) => TagAll(store.children(child, parent), store.singular(child))
    case None => []
  }

  /** Taking the files out of the last document keeps every document tagged. */
  lemma WithParentTagged(pathOut: seq<Doc>)
    requires AllTagged(pathOut)
    ensures AllTagged(WithParent(pathOut, PopFiles(Parent(pathOut)).container))
  {
  }

  /**
   `ContainerNode.get_children`: the child containers, then the parent's
   analyses when the node lists them (which needs a parent), then the
   parent's files, taken out of it.
   */
  function ContainerChildren(store: Store, contName: string, analyses: bool, pathOut: seq<Doc>): (r: Result<Resolution, ResolveError>)
    ensures r.Failure? <==> analyses && |pathOut| == 0
    ensures r.Failure? ==> r.error == NoParent
    ensures r.Success? ==> r.value.path == WithParent(pathOut, PopFiles(Parent(pathOut)).container)
    ensures !analyses ==>
      r.Success? && r.value.children == ContainerKids(store, contName, Parent(pathOut)) + PopFiles(Parent(pathOut)).files
    ensures analyses && |pathOut| > 0 ==>
      r.Success? && r.value.children == ContainerKids(store, contName, Parent(pathOut))
        + TagAll(store.analysesOf(Parent(pathOut).value), store.singular("analyses"))
        + PopFiles(Parent(pathOut)).files
  {
    var parent := Parent(pathOut);
    var kids := ContainerKids(store, contName, parent);
    var p := PopFiles(parent);
    if !analyses then Success(Resolution(WithParent(pathOut, p.container), kids + p.files))
    else if parent.None? then Failure(NoParent)
    else
      var listed := TagAll(store.analysesOf(parent.value), store.singular("analyses"));
      Success(Resolution(WithParent(pathOut, p.container), kids + listed + p.files))
  }

  /**
   `node.get_children(path_out)` for the node the walk stopped at. Listing
   files takes them out of the last resolved document, which the returned
   path reflects.
   */
  function Children(store: Store, node: Node, pathOut: seq<Doc>): (r: Result<Resolution, ResolveError>)
    ensures r.Failure? ==> r.error == NoParent && |pathOut| == 0 && (node.Analyses? || (node.Container? && node.analyses))
    ensures r.Success? ==> |r.value.path| == |pathOut|
    ensures node.Gears? ==> r.Success? && r.value.path == pathOut && (|pathOut| > 0 ==> r.value.children == [])
    ensures node.Gears? && |pathOut| == 0 ==> r.value.children == TagAll(store.allGears, "gear")
    ensures node.Analyses? ==> (r.Success? <==> |pathOut| > 0)
    ensures node.Analyses? && |pathOut| > 0 ==>
      var parent := pathOut[|pathOut| - 1];
      if parent.containerType == Some(store.singular("analyses")) then
        var p := PopFiles(Some(parent));
        r.value == Resolution(WithParent(pathOut, p.container), p.files)
      else
        r.value == Resolution(pathOut, TagAll(store.analysesOf(parent), store.singular("analyses")))
    ensures node.Files? ==>
      var p := PopFiles(Parent(pathOut));
      r == Success(Resolution(WithParent(pathOut, p.container), p.files))
    ensures node.Container? ==> r == ContainerChildren(store, node.contName, node.analyses, pathOut)
  {
    var parent := Parent(pathOut);
    match node
    case Root => Success(Resolution(pathOut, TagAll(store.children("groups", None), store.singular("groups"))))
    case Gears => Success(Resolution(pathOut, if |pathOut| > 0 then [] else TagAll(store.allGears, "gear")))
    case Files =>
      var p := PopFiles(parent);
      Success(Resolution(WithParent(pathOut, p.container), p.files))
    case Container(contName, _, analyses) => ContainerChildren(store, contName, analyses, pathOut)
    case Analyses =>
      if parent.None? then Failure(NoParent)
      else if parent.value.containerType == Some(store.singular("analyses")) then
        var p := PopFiles(parent);
        Success(Resolution(WithParent(pathOut, p.container), p.files))
      else Success(Resolution(pathOut, TagAll(store.analysesOf(parent.value), store.singular("analyses"))))
  }

  lemma AllTaggedConcat(a: seq<Doc>, b: seq<Doc>)
    requires AllTagged(a) && AllTagged(b)
    ensures AllTagged(a + b)
  {
    forall i | 0 <= i < |a + b|
      ensures (a + b)[i].containerType.Some?
    {
      if i >= |a| {
        assert (a + b)[i] == b[i - |a|];
      }
    }
  }

  /** Every child a node lists carries its container type. */
  lemma ChildrenTagged(store: Store, node: Node, pathOut: seq<Doc>)
    ensures Children(store, node, pathOut).Success? ==> AllTagged(Children(store, node, pathOut).value.children)
  {
    var parent := Parent(pathOut);
    if node.Container? && ContainerChildren(store, node.contName, node.analyses, pathOut).Success? {
      var kids := ContainerKids(store, node.contName, parent);
      var files := PopFiles(parent).files;
      if node.analyses {
        var listed := TagAll(store.analysesOf(parent.value), store.singular("analyses"));
        AllTaggedConcat(kids, listed);
        AllTaggedConcat(kids + listed, files);
      } else {
        AllTaggedConcat(kids, files);
      }
    }
  }

  /**
   `Resolver.resolve`: anything but a list is rejected; names left over
   once the walk stops mean the path does not resolve.
   */
  function Resolve(store: Store, idOnly: bool, input: PathInput): (r: Result<Resolution, ResolveError>)
    ensures input.NotAList? ==> r == Failure(InputValidation)
    ensures input.PathList? && r.Success? ==>
      && Walk(store, idOnly, Root, input.names, []).Success?
      && Walk(store, idOnly, Root, input.names, []).value.rest == []
    ensures input.PathList? && Walk(store, idOnly, Root, input.names, []).Success? && Walk(store, idOnly, Root, input.names, []).value.rest != [] ==>
      r == Failure(NotFound)
    ensures input.PathList? && r.Success? ==>
      var w := Walk(store, idOnly, Root, input.names, []).value;
      r == Children(store, w.node, w.out)
  {
    match input
    case NotAList => Failure(InputValidation)
    case PathList(names) =>
      var w :- Walk(store, idOnly, Root, names, []);
      if |w.rest| > 0 then Failure(NotFound) else Children(store, w.node, w.out)
  }

  /** Resolving the empty path lists every group under the root. */
  lemma EmptyPathListsGroups(store: Store, idOnly: bool)
    ensures Resolve(store, idOnly, PathList([])) ==
      Success(Resolution([], TagAll(store.children("groups", None), store.singular("groups"))))
  {
  }

  /** The path `gears` resolves to no documents and lists every gear, tagged `gear`. */
  lemma GearsPathListsAllGears(store: Store, idOnly: bool)
    ensures Resolve(store, idOnly, PathList(["gears"])) == Success(Resolution([], TagAll(store.allGears, "gear")))
  {
    assert ["gears"][1..] == [];
    WalkOneStep(store, idOnly, Root, ["gears"], []);
  }

  /**
   A node that reads its parent has one: nothing is resolved yet only at the
   root, at the gears node, or at the groups node before it consumes a name.
   */
  predicate HasParentWhenNeeded(node: Node, pathIn: seq<string>, pathOut: seq<Doc>) {
    |pathOut| == 0 ==> node.Root? || node.Gears? || (node.Container? && |pathIn| > 0)
  }

  lemma {:induction false} WalkHasParent(store: Store, idOnly: bool, node: Node, pathIn: seq<string>, pathOut: seq<Doc>)
    requires HasParentWhenNeeded(node, pathIn, pathOut)
    ensures Walk(store, idOnly, node, pathIn, pathOut) != Failure(NoParent)
    ensures Walk(store, idOnly, node, pathIn, pathOut).Success? ==>
      var w := Walk(store, idOnly, node, pathIn, pathOut).value;
      HasParentWhenNeeded(w.node, w.rest, w.out)
    decreases |pathIn|, if node.Root? then 1 else 0
  {
    if |pathIn| > 0 {
      var r := Step(store, idOnly, node, pathIn, pathOut);
      if r.Success? && r.value.next.Some? {
        WalkHasParent(store, idOnly, r.value.next.value, r.value.rest, r.value.out);
      }
    }
  }

  /** Resolution never looks up a missing parent: its errors are the 400 and the 404. */
  lemma ResolveNeverLacksParent(store: Store, idOnly: bool, input: PathInput)
    ensures Resolve(store, idOnly, input) != Failure(NoParent)
  {
    if input.PathList? {
      WalkHasParent(store, idOnly, Root, input.names, []);
    }
  }

  /** A malformed `<id:...>` group id is rejected before anything is looked up. */
  lemma InvalidGroupIdRejected(store: Store, idOnly: bool, id: string, more: seq<string>)
    requires store.usesObjectId("groups") && !store.isObjectId(id)
    ensures Resolve(store, idOnly, PathList([Idz(id)] + more)) == Failure(InputValidation)
  {
    var path := [Idz(id)] + more;
    assert path[0] != "gears" by {
      assert path[0] == Idz(id) && Idz(id)[0] == '<' && "gears"[0] == 'g';
    }
    InvalidIdRejected(store, idOnly, "groups", true, false, id, more, []);
    assert Walk(store, idOnly, Root, path, []) == Walk(store, idOnly, Container("groups", true, false), path, []);
  }

  /** At any container, an id the collection cannot read as an ObjectId stops the walk with a 400. */
  lemma InvalidIdRejected(store: Store, idOnly: bool, contName: string, useId: bool, analyses: bool, id: string, more: seq<string>, pathOut: seq<Doc>)
    requires store.usesObjectId(contName) && !store.isObjectId(id)
    ensures Walk(store, idOnly, Container(contName, useId, analyses), [Idz(id)] + more, pathOut) == Failure(InputValidation)
  {
    ParseCriterionRoundTrip(id);
  }

  /**
   After a gear nothing may follow: `gears`, a gear, and anything more is a
   404, or the lookup's own error when the gear does not exist.
   */
  lemma NothingAfterGear(store: Store, idOnly: bool, gear: string, more: seq<string>)
    requires |more| > 0
    ensures GearNamed(store, gear).Some? ==> Resolve(store, idOnly, PathList(["gears", gear] + more)) == Failure(NotFound)
    ensures GearNamed(store, gear).None? ==>
      Resolve(store, idOnly, PathList(["gears", gear] + more)) == Failure(NotFoundFor(ParseCriterion(gear).1))
  {
    var path := ["gears", gear] + more;
    assert path[1..] == [gear] + more;
    assert ([gear] + more)[1..] == more;
    var g := GearsStep(store, [gear] + more, []);
    assert Walk(store, idOnly, Root, path, []) == Walk(store, idOnly, Gears, [gear] + more, []);
    if g.Success? {
      assert Walk(store, idOnly, Gears, [gear] + more, []) == Success(Walked(Gears, more, g.value.out));
    }
  }

  /**
   After a file nothing may follow: from a container, the element, `files`,
   a file name and anything more leave that remainder unconsumed, so the
   path does not resolve.
   */
  lemma NothingAfterFile(store: Store, idOnly: bool, node: Node, criterion: string, file: string, more: seq<string>, pathOut: seq<Doc>)
    requires node.Container? || (node.Analyses? && |pathOut| > 0)
    ensures var w := Walk(store, idOnly, node, [criterion, "files", file] + more, pathOut);
      w.Success? ==> w.value.node == Files && w.value.rest == more
  {
    var path := [criterion, "files", file] + more;
    assert path[1] == "files" && path[2..] == [file] + more;
    assert ([file] + more)[1..] == more;
    var s := Step(store, idOnly, node, path, pathOut);
    if s.Success? {
      assert s.value.next == Some(Files) && s.value.rest == [file] + more;
      FilesWalkStops(store, idOnly, [file] + more, s.value.out);
    }
  }

  /** The files node consumes one name and ends the walk. */
  lemma FilesWalkStops(store: Store, idOnly: bool, pathIn: seq<string>, pathOut: seq<Doc>)
    requires |pathIn| > 0
    ensures var w := Walk(store, idOnly, Files, pathIn, pathOut);
      w.Success? ==> w.value.node == Files && w.value.rest == pathIn[1..]
  {
  }

  /** A group followed by `files`, a file name and anything more never resolves. */
  lemma GroupFileThenMoreFails(store: Store, idOnly: bool, group: string, file: string, more: seq<string>)
    requires group != "gears" && |more| > 0
    ensures Resolve(store, idOnly, PathList([group, "files", file] + more)).Failure?
  {
    NothingAfterFile(store, idOnly, Container("groups", true, false), group, file, more, []);
  }

  /**
   Of several files sharing the requested name, the resolver takes the one
   that comes first in the container's own list: the sort keeps equal names
   in their stored order.
   */
  lemma FilesStepTakesFirstStored(pathIn: seq<string>, pathOut: seq<Doc>)
    requires |pathIn| > 0
    requires FilesStep(pathIn, pathOut).Success?
    ensures var stored := WithKey(pathOut[|pathOut| - 1].files.GetOr([]), NameKey, pathIn[0]);
      && |stored| > 0
      && FilesStep(pathIn, pathOut).value.out[|pathOut|] == stored[0].(containerType := Some("file"))
  {
    var listing := PopFiles(Parent(pathOut)).files;
    var i := FindFile(listing, pathIn[0]).value.value;
    WithKeyFirst(listing, NameKey, pathIn[0], i);
  }

  lemma AppendTagged(prefix: seq<Doc>, out: seq<Doc>)
    requires AllTagged(prefix) && |out| == |prefix| + 1 && out[..|prefix|] == prefix
    requires out[|prefix|].containerType.Some?
    ensures AllTagged(out)
  {
    forall i | 0 <= i < |prefix|
      ensures out[i].containerType.Some?
    {
      assert out[i] == out[..|prefix|][i];
    }
  }

  /** Every step tags the document it resolves, so a walk over tagged documents stays tagged. */
  lemma StepKeepsTagged(store: Store, idOnly: bool, node: Node, pathIn: seq<string>, pathOut: seq<Doc>)
    requires |pathIn| > 0 && AllTagged(pathOut)
    ensures Step(store, idOnly, node, pathIn, pathOut).Success? ==> AllTagged(Step(store, idOnly, node, pathIn, pathOut).value.out)
  {
    var r := Step(store, idOnly, node, pathIn, pathOut);
    if r.Success? {
      match node
      case Root =>
      case Gears =>
        AppendTagged(pathOut, r.value.out);
      case Files =>
        WithParentTagged(pathOut);
        AppendTagged(WithParent(pathOut, PopFiles(Parent(pathOut)).container), r.value.out);
      case Container(contName, useId, analyses) =>
        AppendTagged(pathOut, r.value.out);
      case Analyses =>
        AppendTagged(pathOut, r.value.out);
    }
  }

  lemma {:induction false} WalkKeepsTagged(store: Store, idOnly: bool, node: Node, pathIn: seq<string>, pathOut: seq<Doc>)
    requires AllTagged(pathOut)
    ensures Walk(store, idOnly, node, pathIn, pathOut).Success? ==> AllTagged(Walk(store, idOnly, node, pathIn, pathOut).value.out)
    decreases |pathIn|, if node.Root? then 1 else 0
  {
    if |pathIn| > 0 {
      StepKeepsTagged(store, idOnly, node, pathIn, pathOut);
      var r := Step(store, idOnly, node, pathIn, pathOut);
      if r.Success? && r.value.next.Some? {
        WalkKeepsTagged(store, idOnly, r.value.next.value, r.value.rest, r.value.out);
      }
    }
  }

  /** Every document a resolution returns, on the path or among the children, carries its container type. */
  lemma ResolvedDocsTagged(store: Store, idOnly: bool, input: PathInput)
    ensures Resolve(store, idOnly, input).Success? ==>
      AllTagged(Resolve(store, idOnly, input).value.path) && AllTagged(Resolve(store, idOnly, input).value.children)
  {
    if input.PathList? && Resolve(store, idOnly, input).Success? {
      WalkKeepsTagged(store, idOnly, Root, input.names, []);
      var w := Walk(store, idOnly, Root, input.names, []).value;
      assert Resolve(store, idOnly, input) == Children(store, w.node, w.out);
      ChildrenPathTagged(store, w.node, w.out);
      ChildrenTagged(store, w.node, w.out);
    }
  }

  lemma ChildrenPathTagged(store: Store, node: Node, pathOut: seq<Doc>)
    requires AllTagged(pathOut)
    ensures Children(store, node, pathOut).Success? ==> AllTagged(Children(store, node, pathOut).value.path)
  {
    WithParentTagged(pathOut);
  }

  /** One unfolding of the walk on a non-empty path. */
  lemma WalkOneStep(store: Store, idOnly: bool, node: Node, pathIn: seq<string>, pathOut: seq<Doc>)
    requires |pathIn| > 0
    ensures var s := Step(store, idOnly, node, pathIn, pathOut);
      Walk(store, idOnly, node, pathIn, pathOut) ==
        if s.Failure? then Failure(s.error)
        else if s.value.next.None? then Success(Walked(node, s.value.rest, s.value.out))
        else Walk(store, idOnly, s.value.next.value, s.value.rest, s.value.out)
  {
  }

  /**
   A path of one group name resolves to that group, tagged `group` and
   without its files, listing its projects followed by its files.
   */
  lemma SingleGroupResolves(store: Store, idOnly: bool, group: string, found: Doc)
    requires group != "gears"
    requires var (isId, criterion) := ParseCriterion(group);
      var q := CriterionQuery(store, "groups", isId, true, criterion);
      q.Success? && store.find("groups", q.value, None, Projection(idOnly, true)) == Some(found)
    ensures var g := found.(containerType := Some(store.singular("groups")));
      Resolve(store, idOnly, PathList([group])) ==
        Success(Resolution([g.(files := None)], ContainerKids(store, "groups", Some(g)) + PopFiles(Some(g)).files))
  {
    var g := found.(containerType := Some(store.singular("groups")));
    var node := Container("groups", true, false);
    var s := ContainerStep(store, idOnly, "groups", true, false, [group], []);
    assert s == Success(Stepped([], [g], None));
    assert RootStep([group], []) == Stepped([group], [], Some(node));
    WalkOneStep(store, idOnly, Root, [group], []);
    WalkOneStep(store, idOnly, node, [group], []);
    assert Walk(store, idOnly, Root, [group], []) == Success(Walked(node, [], [g]));
    assert WithParent([g], PopFiles(Some(g)).container) == [g.(files := None)];
  }
}
