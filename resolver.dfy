/** `Jbuilder::Schema::Resolver`: finds the source of a template from a
    symbolic path such as `api/v1/articles/_article` by trying each view
    root in turn. The file-system search of ActionView is a lookup
    function the resolver is given. */
module JbResolver {
  import opened RubyValues
  import opened RubyStrings

  /** `ActionView::TemplatePath.build(name, prefix, partial)`. */
  datatype TemplateQuery = TemplateQuery(name: string, prefix: string, partial: bool)

  /** The source of the first template file under a directory that matches
      the query, as `template_source_from_path` returns it. */
  type Lookup = (string, TemplateQuery) -> Option<string>

  /** The parts of a path: all segments but the last two joined with `/`,
      the second-to-last segment, and the last one with a single leading
      `_` removed, which marks a partial. */
  datatype PathParts = PathParts(prefix: string, controller: string, action: string, partial: bool)

  /** The last segment as it was written. */
  function RawAction(p: PathParts): string {
    if p.partial then "_" + p.action else p.action
  }

  /** `*prefixes, controller, action = path.split("/")` followed by
      `action.delete_prefix!("_")`. With fewer than two segments the
      `action` is `nil` and the call fails. */
  function SplitPath(path: string): (r: Result<PathParts>)
    ensures r.Err? <==> |RubySplit(path, '/')| < 2
    ensures r.Err? ==> r.error == NoMethodError("delete_prefix!")
    ensures r.Ok? ==>
      var fs := RubySplit(path, '/');
      var n := |fs|;
      fs == fs[..n - 2] + [r.value.controller, RawAction(r.value)] &&
      r.value.prefix == Join(fs[..n - 2], "/")
    ensures r.Ok? ==> (r.value.partial <==> StartsWith(RawAction(r.value), "_"))
  {
    var fs := RubySplit(path, '/');
    var n := |fs|;
    if n < 2 then Err(NoMethodError("delete_prefix!"))
    else
      var raw := fs[n - 1];
      var partial := StartsWith(raw, "_");
      var r := PathParts(Join(fs[..n - 2], "/"), fs[n - 2], DeletePrefix(raw, "_"), partial);
      assert fs == fs[..n - 2] + [fs[n - 2], fs[n - 1]];
      Ok(r)
  }

  /** `find(name, prefix, partial)`: nothing is looked up for a name with a
      `.` in it. */
  function Find(lookup: Lookup, dir: string, name: string, prefix: string, partial: bool): (r: Option<string>)
    ensures '.' in name ==> r.None?
    ensures '.' !in name ==> r == lookup(dir, TemplateQuery(name, prefix, partial))
  {
    if '.' in name then None else lookup(dir, TemplateQuery(name, prefix, partial))
  }

  /** What one view root yields: the resolver for `"#{root}/#{prefix}"`
      asked for the action under the controller. */
  function Hit(lookup: Lookup, root: string, parts: PathParts): (r: Option<string>)
    ensures '.' in parts.action ==> r.None?
    ensures '.' !in parts.action ==>
      r == lookup(root + "/" + parts.prefix, TemplateQuery(parts.action, parts.controller, parts.partial))
  {
    Find(lookup, root + "/" + parts.prefix, parts.action, parts.controller, parts.partial)
  }

  /** The hit of the first root that has one, `nil` if none has. */
  function FirstHit(lookup: Lookup, roots: seq<string>, parts: PathParts): (r: Option<string>)
    ensures r.None? <==> forall i :: 0 <= i < |roots| ==> Hit(lookup, roots[i], parts).None?
    ensures r.Some? ==> exists i :: (0 <= i < |roots| && r == Hit(lookup, roots[i], parts) &&
      forall j :: 0 <= j < i ==> Hit(lookup, roots[j], parts).None?)
  {
    if roots == [] then None
    else
      var h := Hit(lookup, roots[0], parts);
      if h.Some? then h
      else
        var rest := FirstHit(lookup, roots[1..], parts);
        assert forall i :: 1 <= i < |roots| ==> roots[i] == roots[1..][i - 1];
        if rest.Some? then
          var i :| 0 <= i < |roots[1..]| && rest == Hit(lookup, roots[1..][i], parts) &&
            forall j :: 0 <= j < i ==> Hit(lookup, roots[1..][j], parts).None?;
          assert forall j :: 0 <= j < i + 1 ==> Hit(lookup, roots[j], parts).None? by {
            forall j | 0 <= j < i + 1 ensures Hit(lookup, roots[j], parts).None? {
              if j > 0 {
                assert roots[j] == roots[1..][j - 1];
              }
            }
          }
          rest
        else rest
  }

  /** Roots are tried in order: the root at index `i` decides the result
      when every earlier root has no hit and it has one. */
  lemma FirstHitIsEarliest(lookup: Lookup, roots: seq<string>, parts: PathParts, i: nat)
    requires i < |roots| && Hit(lookup, roots[i], parts).Some?
    requires forall j :: 0 <= j < i ==> Hit(lookup, roots[j], parts).None?
    ensures FirstHit(lookup, roots, parts) == Hit(lookup, roots[i], parts)
  {
    var r := FirstHit(lookup, roots, parts);
    var k :| 0 <= k < |roots| && r == Hit(lookup, roots[k], parts) &&
      forall j :: 0 <= j < k ==> Hit(lookup, roots[j], parts).None?;
  }

  /** `Resolver.find_template_source(paths, path)`. */
  method FindTemplateSource(lookup: Lookup, paths: seq<string>, path: string) returns (r: Result<Option<string>>)
    ensures SplitPath(path).Err? ==> r == Err(SplitPath(path).error)
    ensures SplitPath(path).Ok? ==> r == Ok(FirstHit(lookup, paths, SplitPath(path).value))
  {
    var parts := SplitPath(path);
    if parts.Err? {
      return Err(parts.error);
    }
    var i := 0;
    while i < |paths|
      invariant 0 <= i <= |paths|
      invariant forall j :: 0 <= j < i ==> Hit(lookup, paths[j], parts.value).None?
    {
      var found := Find(lookup, paths[i] + "/" + parts.value.prefix, parts.value.action, parts.value.controller, parts.value.partial);
      if found.Some? {
        FirstHitIsEarliest(lookup, paths, parts.value, i);
        return Ok(found);
      }
      i := i + 1;
    }
    r := Ok(None);
  }

  /** Splitting a path that does not end in `/` and rejoining its segments
      gives the path back. */
  lemma {:induction false} JoinRubySplit(path: string)
    requires path != [] && path[|path| - 1] != '/'
    ensures Join(RubySplit(path, '/'), "/") == path
  {
    SplitLastNonEmpty(path, '/');
    JoinSplit(path, '/');
  }

  /** The parts of a path put back together: with at least three segments
      and no trailing `/`, `prefix/controller/action` (the action with its
      `_`) is the path. */
  lemma {:induction false} SplitPathRoundTrip(path: string)
    requires path != [] && path[|path| - 1] != '/'
    requires |RubySplit(path, '/')| >= 3
    ensures SplitPath(path).Ok?
    ensures var p := SplitPath(path).value;
      p.prefix + "/" + p.controller + "/" + RawAction(p) == path
  {
    var fs := RubySplit(path, '/');
    var n := |fs|;
    var p := SplitPath(path).value;
    JoinRubySplit(path);
    assert fs == fs[..n - 2] + [p.controller] + [RawAction(p)];
    JoinSnoc(fs[..n - 2], p.controller, "/");
    JoinSnoc(fs[..n - 2] + [p.controller], RawAction(p), "/");
  }
}
