/**
 Names that must be read back: resource names (MRNs), which are rendered from validated parts, and
 vault references, which are rendered from a credential's address.
 */
module Names {
  import opened Basics
  import opened Text

  // ---- resource names ----------------------------------------------------------------------------

  datatype Meta = Text(text: string) | Other

  datatype Parts = Parts(service: string, tenant: string, project: string, resourceType: string, path: string)

  /** The first of two metadata keys that holds a string, trimmed; an empty one still ends the search. */
  function FirstMeta(metadata: map<string, Meta>, a: string, b: string): string {
    if a in metadata && metadata[a].Text? then Trim(metadata[a].text)
    else if b in metadata && metadata[b].Text? then Trim(metadata[b].text)
    else ""
  }

  predicate ValidSegment(s: string) {
    Trim(s) != "" && ':' !in s && '/' !in s && '*' !in s && !Contains(s, "..")
  }

  predicate ValidPath(s: string) {
    Trim(s) != "" && s[0] != '/' && s[|s| - 1] != '/' && ':' !in s && '*' !in s && !Contains(s, "..")
  }

  function OrElse(s: string, fallback: string): string { if s == "" then fallback else s }

  function BuildMRN(tenant: string, project: string, kind: string, name: string, metadata: map<string, Meta>): Result<Parts, string> {
    var parts := Parts(
      OrElse(FirstMeta(metadata, "mrn_service", "service"), "core"), tenant, project,
      OrElse(FirstMeta(metadata, "mrn_resource_type", "resource_type"), Lower(Trim(kind))),
      OrElse(FirstMeta(metadata, "mrn_resource_path", "resource_path"), Trim(name)));
    if !ValidSegment(parts.service) then Err("service")
    else if !ValidSegment(parts.tenant) then Err("tenant")
    else if !ValidSegment(parts.project) then Err("project")
    else if !ValidSegment(parts.resourceType) then Err("resource_type")
    else if !ValidPath(parts.path) then Err("resource_path")
    else Ok(parts)
  }

  function RenderMRN(p: Parts): string {
    if p == Parts("", "", "", "", "") then ""
    else "mrn:" + (p.service + ":" + (p.tenant + ":" + (p.project + ":" + (p.resourceType + "/" + p.path))))
  }

  /** Splits at the first occurrence of `c`. */
  function Cut(s: string, c: char): (r: Option<(string, string)>)
    ensures r.Some? ==> s == r.value.0 + [c] + r.value.1 && c !in r.value.0
    ensures r.None? ==> c !in s
  {
    if s == "" then None
    else if s[0] == c then Some(("", s[1..]))
    else
      var rest := Cut(s[1..], c);
      if rest.None? then None
      else assert s == [s[0]] + s[1..]; Some(([s[0]] + rest.value.0, rest.value.1))
  }

  /** The reader a name is for: three cuts at a colon, one at a slash, and the rest is the path. */
  function ParseMRN(s: string): Option<Parts> {
    if !("mrn:" <= s) then None
    else
      var a := Cut(s[4..], ':');
      if a.None? then None
      else
        var b := Cut(a.value.1, ':');
        if b.None? then None
        else
          var c := Cut(b.value.1, ':');
          if c.None? then None
          else
            var d := Cut(c.value.1, '/');
            if d.None? then None
            else Some(Parts(a.value.0, b.value.0, c.value.0, d.value.0, d.value.1))
  }

  lemma {:induction false} CutUndoesJoin(a: string, c: char, b: string)
    requires c !in a
    ensures Cut(a + [c] + b, c) == Some((a, b))
  {
    var s := a + [c] + b;
    if a == "" {
      assert s[1..] == b;
    } else {
      assert s[1..] == a[1..] + [c] + b;
      CutUndoesJoin(a[1..], c, b);
      assert a == [a[0]] + a[1..];
    }
  }

  /** No separator stands where the reader would stop too soon. */
  predicate Unambiguous(p: Parts) {
    && ':' !in p.service && ':' !in p.tenant && ':' !in p.project && '/' !in p.resourceType
    && p != Parts("", "", "", "", "")
  }

  /** The rendered name reads back to its parts exactly when they are unambiguous. */
  lemma RoundTripIff(p: Parts)
    ensures ParseMRN(RenderMRN(p)) == Some(p) <==> Unambiguous(p)
  {
    if Unambiguous(p) {
      var d := p.resourceType + "/" + p.path;
      var c := p.project + ":" + d;
      var b := p.tenant + ":" + c;
      var a := p.service + ":" + b;
      assert RenderMRN(p)[4..] == a;
      CutUndoesJoin(p.service, ':', b);
      CutUndoesJoin(p.tenant, ':', c);
      CutUndoesJoin(p.project, ':', d);
      CutUndoesJoin(p.resourceType, '/', p.path);
    } else if ParseMRN(RenderMRN(p)) == Some(p) {
      ParsedIsUnambiguous(RenderMRN(p));
    }
  }

  lemma ParsedIsUnambiguous(s: string)
    requires ParseMRN(s).Some?
    ensures ParseMRN(s).value == Parts("", "", "", "", "") || Unambiguous(ParseMRN(s).value)
  {
  }

  /** Every name the service stores reads back, so no two resources with different parts share a name. */
  lemma StoredNamesReadBack(tenant: string, project: string, kind: string, name: string, metadata: map<string, Meta>, other: Parts)
    requires BuildMRN(tenant, project, kind, name, metadata).Ok?
    ensures var p := BuildMRN(tenant, project, kind, name, metadata).value;
      && ParseMRN(RenderMRN(p)) == Some(p)
      && (Unambiguous(other) && RenderMRN(other) == RenderMRN(p) ==> other == p)
  {
    var p := BuildMRN(tenant, project, kind, name, metadata).value;
    RoundTripIff(p);
    RoundTripIff(other);
  }

  // ---- which part is which -----------------------------------------------------------------------

  /** The first key that holds a text decides, trimmed; without one, or if that is blank, the fallback. */
  predicate From(metadata: map<string, Meta>, first: string, second: string, fallback: string, part: string) {
    var a := first in metadata && metadata[first].Text?;
    var b := second in metadata && metadata[second].Text?;
    && (a ==> part == (if Trim(metadata[first].text) == "" then fallback else Trim(metadata[first].text)))
    && (!a && b ==> part == (if Trim(metadata[second].text) == "" then fallback else Trim(metadata[second].text)))
    && (!a && !b ==> part == fallback)
  }

  /** Not blank, and free of the characters a name or a pattern is made with. */
  predicate PlainText(s: string) {
    && (exists k :: 0 <= k < |s| && !IsSpace(s[k]))
    && (forall k :: 0 <= k < |s| ==> s[k] != ':' && s[k] != '*') && !HasDotDot(s)
  }

  lemma PlainIff(s: string)
    ensures ValidSegment(s) <==> PlainText(s) && '/' !in s
    ensures ValidPath(s) <==> PlainText(s) && s[0] != '/' && s[|s| - 1] != '/'
  {
    TrimIsBlankIff(s);
    DotDotIff(s);
  }

  lemma RenderedInOrder(p: Parts)
    ensures Trim(p.service) != "" ==>
      RenderMRN(p) == "mrn:" + p.service + ":" + p.tenant + ":" + p.project + ":" + p.resourceType + "/" + p.path
  {
  }

  /** Tenant and project stand as given, each in its place; service, type and path come from the metadata or their defaults. */
  lemma PartsAreInPlace(tenant: string, project: string, kind: string, name: string, metadata: map<string, Meta>)
    requires BuildMRN(tenant, project, kind, name, metadata).Ok?
    ensures var p := BuildMRN(tenant, project, kind, name, metadata).value;
      && p.tenant == tenant && p.project == project
      && From(metadata, "mrn_service", "service", "core", p.service)
      && From(metadata, "mrn_resource_type", "resource_type", Lower(Trim(kind)), p.resourceType)
      && From(metadata, "mrn_resource_path", "resource_path", Trim(name), p.path)
      && RenderMRN(p) == "mrn:" + p.service + ":" + tenant + ":" + project + ":" + p.resourceType + "/" + p.path
  {
    RenderedInOrder(BuildMRN(tenant, project, kind, name, metadata).value);
  }

  /** A name is accepted exactly when every part it would have is plain and only the path, inside, has a slash. */
  lemma AcceptedIff(p: Parts, kind: string, name: string, metadata: map<string, Meta>)
    requires From(metadata, "mrn_service", "service", "core", p.service)
    requires From(metadata, "mrn_resource_type", "resource_type", Lower(Trim(kind)), p.resourceType)
    requires From(metadata, "mrn_resource_path", "resource_path", Trim(name), p.path)
    ensures BuildMRN(p.tenant, p.project, kind, name, metadata).Ok?
       <==> (&& PlainText(p.service) && PlainText(p.tenant) && PlainText(p.project) && PlainText(p.resourceType) && PlainText(p.path)
             && '/' !in p.service && '/' !in p.tenant && '/' !in p.project && '/' !in p.resourceType
             && p.path[0] != '/' && p.path[|p.path| - 1] != '/')
  {
    assert BuildMRN(p.tenant, p.project, kind, name, metadata).Ok? <==> AllValid(p);
    PlainIff(p.service);
    PlainIff(p.tenant);
    PlainIff(p.project);
    PlainIff(p.resourceType);
    PlainIff(p.path);
  }

  predicate AllValid(p: Parts) {
    ValidSegment(p.service) && ValidSegment(p.tenant) && ValidSegment(p.project) && ValidSegment(p.resourceType) && ValidPath(p.path)
  }

  // ---- vault references --------------------------------------------------------------------------

  datatype Address = Address(project: string, environment: string, folder: string, key: string)

  function TrimSlashesLeft(s: string): string {
    if s != "" && s[0] == '/' then TrimSlashesLeft(s[1..]) else s
  }

  function TrimSlashes(s: string): string
    decreases |s|
  {
    if s != "" && s[|s| - 1] == '/' then TrimSlashes(s[..|s| - 1]) else TrimSlashesLeft(s)
  }

  function Ref(a: Address): string {
    var path := TrimSlashes(a.folder);
    "secret://" + a.project + "/" + a.environment + "/" + (if path != "" then path + "/" else "") + a.key
  }

  /** A caller's name as one segment of an address; empty when it could name another folder. */
  function SanitizeSegment(s: string): string {
    var t := Trim(s);
    if t == "" || '/' in t || '\\' in t || Contains(t, "..") then "" else t
  }

  /** Where a template's parameter is kept under one vault scope. */
  function AddressOf(project: string, environment: string, template: string, param: string): Option<Address> {
    var folder, key := SanitizeSegment(template), SanitizeSegment(param);
    if folder == "" || key == "" then None else Some(Address(project, environment, folder, key))
  }

  /** Writes a credential: the reference is returned only if the vault took the write. */
  function Store(project: string, environment: string, put: Address -> bool, template: string, param: string): Option<string> {
    var a := AddressOf(project, environment, template, param);
    if a.None? || project == "" || environment == "" || !put(a.value) then None else Some(Ref(a.value))
  }

  lemma {:induction false} LeadingSlash(s: string)
    ensures TrimSlashes("/" + s) == TrimSlashes(s)
    decreases |s|
  {
    var t := "/" + s;
    if s == "" {
      assert t[..0] == "";
    } else if s[|s| - 1] == '/' {
      assert t[..|t| - 1] == "/" + s[..|s| - 1];
      LeadingSlash(s[..|s| - 1]);
    } else {
      assert t[1..] == s;
    }
  }

  /** Slashes around a folder make no difference to a reference, and a folder of nothing but slashes is no folder. */
  lemma OuterSlashesDoNotMatter(a: Address)
    ensures Ref(a.(folder := "/" + a.folder)) == Ref(a) == Ref(a.(folder := a.folder + "/"))
    ensures a.folder == "" ==> Ref(a) == "secret://" + a.project + "/" + a.environment + "/" + a.key
  {
    LeadingSlash(a.folder);
    assert (a.folder + "/")[..|a.folder|] == a.folder;
  }

  lemma RefOf(project: string, environment: string, folder: string, key: string)
    requires folder != "" && '/' !in folder
    ensures Ref(Address(project, environment, folder, key)) == ("secret://" + project + "/" + environment + "/") + (folder + ['/'] + key)
  {
    assert TrimSlashes(folder) == folder;
  }

  /** Trimmed, the name is one plain segment of an address. */
  predicate NamesSegment(s: string) {
    Trim(s) != "" && (forall k :: 0 <= k < |s| ==> s[k] != '/' && s[k] != '\\') && !HasDotDot(Trim(s))
  }

  lemma SegmentIff(s: string)
    ensures SanitizeSegment(s) == (if NamesSegment(s) then Trim(s) else "")
  {
    TrimKeepsChar(s, '/');
    TrimKeepsChar(s, '\\');
    DotDotIff(Trim(s));
  }

  /**
   A credential is stored exactly when the scope is set, both names are plain segments and the vault
   takes the write at that address; the reference spells the address out.
   */
  lemma StoredIff(project: string, environment: string, put: Address -> bool, template: string, param: string)
    ensures Store(project, environment, put, template, param).Some?
       <==> (&& project != "" && environment != "" && NamesSegment(template) && NamesSegment(param)
             && put(Address(project, environment, Trim(template), Trim(param))))
    ensures Store(project, environment, put, template, param).Some? ==>
      Store(project, environment, put, template, param).value == "secret://" + project + "/" + environment + "/" + Trim(template) + "/" + Trim(param)
  {
    SegmentIff(template);
    SegmentIff(param);
    if Store(project, environment, put, template, param).Some? {
      TrimKeepsChar(template, '/');
      RefOf(project, environment, Trim(template), Trim(param));
    }
  }

  /**
   Under one scope two parameters share a reference exactly when their template names and their
   parameter names agree once trimmed; names that differ only in outer white space share one secret.
   */
  lemma SameRefIff(project: string, environment: string, t1: string, p1: string, t2: string, p2: string)
    requires AddressOf(project, environment, t1, p1).Some? && AddressOf(project, environment, t2, p2).Some?
    ensures Ref(AddressOf(project, environment, t1, p1).value) == Ref(AddressOf(project, environment, t2, p2).value)
       <==> Trim(t1) == Trim(t2) && Trim(p1) == Trim(p2)
  {
    var head := "secret://" + project + "/" + environment + "/";
    var a, b := Trim(t1) + ['/'] + Trim(p1), Trim(t2) + ['/'] + Trim(p2);
    RefOf(project, environment, Trim(t1), Trim(p1));
    RefOf(project, environment, Trim(t2), Trim(p2));
    CutUndoesJoin(Trim(t1), '/', Trim(p1));
    CutUndoesJoin(Trim(t2), '/', Trim(p2));
    if head + a == head + b {
      assert a == (head + a)[|head|..] == (head + b)[|head|..] == b;
    }
  }
}
