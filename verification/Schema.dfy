/** Transitive schema resolution for the API documentation: the reference collector and the worklist. */
module Schema {
  import opened Prelude

  /** A JSON value, as far as references are concerned. */
  datatype Node = Object(fields: seq<Field>) | Array(items: seq<Node>) | Text(s: string) | Scalar
  datatype Field = Field(key: string, value: Node)

  const REF := "$ref"
  const PREFIX := "#/components/schemas/"

  predicate IsRef(f: Field) {
    f.key == REF && f.value.Text? && PREFIX <= f.value.s
  }

  /** What follows the last slash. */
  function LastSegment(s: string): string {
    if s == "" || s[|s| - 1] == '/' then "" else LastSegment(s[..|s| - 1]) + [s[|s| - 1]]
  }

  /** What a reference is, said without the collector: some path into the value ends in a `$ref`. */
  ghost predicate Mentions(node: Node, name: string) {
    match node
    case Object(fields) => exists i | 0 <= i < |fields| :: FieldMentions(fields[i], name)
    case Array(items) => exists i | 0 <= i < |items| :: Mentions(items[i], name)
    case Text(_) => false
    case Scalar => false
  }

  ghost predicate FieldMentions(f: Field, name: string) {
    if IsRef(f) then LastSegment(f.value.s) == name else Mentions(f.value, name)
  }

  lemma {:induction false} LastSegmentIff(s: string, name: string)
    ensures LastSegment(s) == name <==>
            '/' !in name && (s == name || exists head: string :: s == head + "/" + name)
  {
    if s != "" && s[|s| - 1] != '/' {
      var init, c := s[..|s| - 1], s[|s| - 1];
      assert s == init + [c];
      var segment := LastSegment(init);
      LastSegmentIff(init, segment);
      if init != segment {
        var head: string :| init == head + "/" + segment;
        assert s == head + "/" + (segment + [c]);
      }
      assert '/' !in segment + [c];
      if '/' !in name && (s == name || exists head: string :: s == head + "/" + name) {
        OneSegment(s, name, segment + [c]);
      }
    } else {
      assert s != "" ==> s == s[..|s| - 1] + "/" + "";
      if '/' !in name && (s == name || exists head: string :: s == head + "/" + name) {
        OneSegment(s, name, "");
      }
    }
  }

  /** A text has one last segment. */
  lemma OneSegment(s: string, a: string, b: string)
    requires '/' !in a && (s == a || exists head: string :: s == head + "/" + a)
    requires '/' !in b && (s == b || exists head: string :: s == head + "/" + b)
    ensures a == b
  {
    Ends(s, a);
    Ends(s, b);
  }

  lemma Ends(s: string, a: string)
    requires s == a || exists head: string :: s == head + "/" + a
    ensures |a| <= |s| && s[|s| - |a|..] == a && (|a| < |s| ==> s[|s| - |a| - 1] == '/')
  {
  }

  /** A text mentions a schema only as a `$ref` under the prefix, and then the one named after its last slash. */
  lemma TextMentionsIff(key: string, s: string, name: string)
    ensures FieldMentions(Field(key, Text(s)), name) <==>
            && key == "$ref" && '/' !in name
            && exists head: string :: "#/components/schemas/" <= head + "/" + name && s == head + "/" + name
  {
    LastSegmentIff(s, name);
    assert PREFIX[1] == '/';
  }

  /** The recursive collector: it adds to `refs` exactly the names the value mentions. */
  method CollectRefs(node: Node, refs: set<string>) returns (all: set<string>)
    ensures forall name :: name in all <==> name in refs || Mentions(node, name)
  {
    all := refs;
    match node
    case Object(fields) =>
      for i := 0 to |fields|
        invariant forall name :: name in all <==>
                                   name in refs || exists k | 0 <= k < i :: FieldMentions(fields[k], name)
      {
        if IsRef(fields[i]) {
          all := all + {LastSegment(fields[i].value.s)};
        } else {
          all := CollectRefs(fields[i].value, all);
        }
      }
    case Array(items) =>
      for i := 0 to |items|
        invariant forall name :: name in all <==>
                                   name in refs || exists k | 0 <= k < i :: Mentions(items[k], name)
      {
        all := CollectRefs(items[i], all);
      }
    case Text(_) =>
    case Scalar =>
  }

  /** The schemas of a specification: a dictionary with its declaration order. */
  datatype Schemas = Schemas(order: seq<string>, body: map<string, Node>) {
    ghost predicate Valid() {
      && (forall i, j :: 0 <= i < j < |order| ==> order[i] != order[j])
      && (forall name :: name in order <==> name in body)
    }
  }

  /** `links` references lead from `paths` to `name`, through defined schemas. */
  ghost predicate ReachedIn(paths: Node, schemas: map<string, Node>, name: string, links: nat)
    decreases links
  {
    if links == 0 then Mentions(paths, name)
    else exists user :: ReachedIn(paths, schemas, user, links - 1) && user in schemas && Mentions(schemas[user], name)
  }

  ghost predicate Reachable(paths: Node, schemas: map<string, Node>, name: string) {
    exists links: nat :: ReachedIn(paths, schemas, name, links)
  }

  lemma OneMoreLink(paths: Node, schemas: map<string, Node>, user: string, name: string)
    requires Reachable(paths, schemas, user)
    requires user in schemas && Mentions(schemas[user], name)
    ensures Reachable(paths, schemas, name)
  {
    var links: nat :| ReachedIn(paths, schemas, user, links);
    assert ReachedIn(paths, schemas, name, links + 1);
  }

  lemma FirstLink(paths: Node, schemas: map<string, Node>, name: string)
    requires Mentions(paths, name)
    ensures Reachable(paths, schemas, name)
  {
    assert ReachedIn(paths, schemas, name, 0);
  }

  /** Every defined schema that the paths or a member of `done` mention is in `names`. */
  ghost predicate IsClosed(paths: Node, schemas: map<string, Node>, done: set<string>, names: set<string>) {
    && (forall name :: Mentions(paths, name) && name in schemas ==> name in names)
    && (forall user, name :: user in done && user in schemas && Mentions(schemas[user], name) && name in schemas
                             ==> name in names)
  }

  /** A set that is closed on its own contains everything reachable. */
  lemma {:induction false} ClosedHoldsReached(paths: Node, schemas: map<string, Node>, names: set<string>,
                                              name: string, links: nat)
    requires IsClosed(paths, schemas, names, names)
    requires ReachedIn(paths, schemas, name, links)
    requires name in schemas
    ensures name in names
    decreases links
  {
    if links > 0 {
      var user :| ReachedIn(paths, schemas, user, links - 1) && user in schemas && Mentions(schemas[user], name);
      ClosedHoldsReached(paths, schemas, names, user, links - 1);
    }
  }

  /** The names of `order` that are in `names`, in declaration order. */
  function Kept(order: seq<string>, names: set<string>): seq<string> {
    if order == [] then []
    else (if order[0] in names then [order[0]] else []) + Kept(order[1..], names)
  }

  lemma {:induction false} KeptOneMore(order: seq<string>, name: string, names: set<string>)
    ensures Kept(order + [name], names) == Kept(order, names) + if name in names then [name] else []
  {
    hide Kept;
    KeptHead(order, names);
    KeptHead(order + [name], names);
    if order == [] {
      assert (order + [name])[1..] == [];
      KeptHead([], names);
    } else {
      assert (order + [name])[1..] == order[1..] + [name];
      KeptOneMore(order[1..], name, names);
    }
  }

  lemma KeptHead(order: seq<string>, names: set<string>)
    ensures Kept(order, names)
            == if order == [] then [] else (if order[0] in names then [order[0]] else []) + Kept(order[1..], names)
  {
  }

  lemma {:induction false} KeptMembers(order: seq<string>, names: set<string>)
    requires forall i, j :: 0 <= i < j < |order| ==> order[i] != order[j]
    ensures forall name :: name in Kept(order, names) <==> name in order && name in names
    ensures forall i, j :: 0 <= i < j < |Kept(order, names)| ==> Kept(order, names)[i] != Kept(order, names)[j]
  {
    if order != [] {
      KeptMembers(order[1..], names);
      assert order == [order[0]] + order[1..];
      assert order[0] !in order[1..];
    }
  }

  /** What the fragment must hold: the reachable defined schemas, unchanged, in declaration order. */
  ghost predicate IsResolution(paths: Node, all: Schemas, out: Schemas) {
    && out.Valid()
    && (forall name :: name in out.body <==> name in all.body && Reachable(paths, all.body, name))
    && (forall name :: name in out.body && name in all.body ==> out.body[name] == all.body[name])
    && out.order == Kept(all.order, out.body.Keys)
  }

  ghost predicate AllReachable(paths: Node, schemas: map<string, Node>, names: set<string>) {
    forall name :: name in names ==> Reachable(paths, schemas, name)
  }

  lemma RootsStart(paths: Node, schemas: map<string, Node>, roots: set<string>, done: set<string>)
    requires done == {}
    requires forall name :: name in roots <==> Mentions(paths, name)
    ensures AllReachable(paths, schemas, roots + done) && IsClosed(paths, schemas, done, roots + done)
  {
    hide Mentions, ReachedIn, Reachable;
    forall name | name in roots ensures Reachable(paths, schemas, name) {
      FirstLink(paths, schemas, name);
    }
  }

  /** Reachable and closed on its own: exactly the reachable schemas. */
  lemma ClosedIsResolution(paths: Node, all: Schemas, out: Schemas)
    requires out.Valid() && out.order == Kept(all.order, out.body.Keys)
    requires out.body.Keys <= all.body.Keys
    requires forall name :: name in out.body ==> out.body[name] == all.body[name]
    requires AllReachable(paths, all.body, out.body.Keys)
    requires IsClosed(paths, all.body, out.body.Keys, out.body.Keys)
    ensures IsResolution(paths, all, out)
  {
    hide Mentions, ReachedIn, Kept;
    forall name | name in all.body && Reachable(paths, all.body, name) ensures name in out.body {
      var links: nat :| ReachedIn(paths, all.body, name, links);
      ClosedHoldsReached(paths, all.body, out.body.Keys, name, links);
    }
  }

  /** One round of the worklist keeps the frontier reachable and the resolved set closed up to the frontier. */
  lemma RoundKeeps(paths: Node, schemas: map<string, Node>, done: set<string>, frontier: set<string>,
                   name: string, nested: set<string>)
    requires name in frontier && name in schemas
    requires forall next :: next in nested <==> Mentions(schemas[name], next)
    requires AllReachable(paths, schemas, frontier + done)
    requires IsClosed(paths, schemas, done, frontier + done)
    ensures AllReachable(paths, schemas, frontier + nested + done)
    ensures IsClosed(paths, schemas, done + {name}, frontier + nested + done)
  {
    hide Mentions, ReachedIn, Reachable;
    forall next | next in nested ensures Reachable(paths, schemas, next) {
      OneMoreLink(paths, schemas, name, next);
    }
  }

  lemma SkipKeeps(paths: Node, schemas: map<string, Node>, done: set<string>, frontier: set<string>, name: string)
    requires name in done || name !in schemas
    requires AllReachable(paths, schemas, frontier + done)
    requires IsClosed(paths, schemas, done, frontier + done)
    ensures AllReachable(paths, schemas, frontier - {name} + done)
    ensures IsClosed(paths, schemas, done, frontier - {name} + done)
  {
    hide Mentions, ReachedIn, Reachable;
  }

  /**
   * The worklist. It ends on every graph, cyclic or not: each round either resolves one more
   * defined schema or shrinks the frontier.
   */
  method ResolveSchemas(paths: Node, all: Schemas) returns (out: Schemas)
    requires all.Valid()
    ensures IsResolution(paths, all, out)
  {
    hide *;
    var frontier := CollectRefs(paths, {});
    var resolved: map<string, Node> := map[];
    RootsStart(paths, all.body, frontier, resolved.Keys);
    while frontier != {}
      invariant resolved.Keys <= all.body.Keys
      invariant forall name :: name in resolved ==> resolved[name] == all.body[name]
      invariant AllReachable(paths, all.body, frontier + resolved.Keys)
      invariant IsClosed(paths, all.body, resolved.Keys, frontier + resolved.Keys)
      decreases all.body.Keys - resolved.Keys, frontier
    {
      var name :| name in frontier;
      if name in resolved || name !in all.body {
        SkipKeeps(paths, all.body, resolved.Keys, frontier, name);
        frontier := frontier - {name};
        continue;
      }
      var schema := all.body[name];
      var nested := CollectRefs(schema, {});
      RoundKeeps(paths, all.body, resolved.Keys, frontier, name, nested);
      ghost var done := resolved.Keys;
      resolved := resolved[name := schema];
      assert resolved.Keys == done + {name};
      assert frontier - {name} + (nested - resolved.Keys) + resolved.Keys == frontier + nested + done;
      frontier := frontier - {name} + (nested - resolved.Keys);
    }
    assert frontier + resolved.Keys == resolved.Keys;
    out := InDeclarationOrder(all, resolved);
    ClosedIsResolution(paths, all, out);
  }

  /** Filtering the declaration order by the resolved names gives a dictionary over exactly those names. */
  lemma KeptIsDictionary(all: Schemas, resolved: map<string, Node>)
    requires all.Valid()
    requires resolved.Keys <= all.body.Keys
    ensures Schemas(Kept(all.order, resolved.Keys), resolved).Valid()
    ensures Kept([], resolved.Keys) == []
  {
    hide Mentions;
    KeptMembers(all.order, resolved.Keys);
    forall name | name in resolved ensures name in Kept(all.order, resolved.Keys) {
      assert name in all.body;
    }
  }

  lemma DictionaryNames(s: Schemas)
    requires s.Valid()
    ensures forall name :: name in s.order <==> name in s.body
  {
  }

  method InDeclarationOrder(all: Schemas, resolved: map<string, Node>) returns (out: Schemas)
    requires all.Valid()
    requires resolved.Keys <= all.body.Keys
    requires forall name :: name in resolved ==> resolved[name] == all.body[name]
    ensures out.body == resolved
    ensures out.order == Kept(all.order, resolved.Keys)
    ensures out.Valid()
  {
    hide *;
    KeptIsDictionary(all, resolved);
    DictionaryNames(Schemas(Kept(all.order, resolved.Keys), resolved));
    var order, body := [], map[];
    for i := 0 to |all.order|
      invariant order == Kept(all.order[..i], resolved.Keys)
      invariant forall name :: name in body <==> name in order
      invariant forall name :: name in body ==> name in resolved && body[name] == resolved[name]
    {
      var name := all.order[i];
      assert all.order[..i + 1] == all.order[..i] + [name];
      KeptOneMore(all.order[..i], name, resolved.Keys);
      if name in resolved {
        order := order + [name];
        body := body[name := all.body[name]];
      }
    }
    assert all.order == all.order[..|all.order|];
    assert body == resolved;
    out := Schemas(order, body);
  }

  ghost predicate MentionedWithin(schemas: Schemas, name: string) {
    exists user :: user in schemas.body && Mentions(schemas.body[user], name)
  }

  /** Every reference in a fragment that the full specification defines is defined in the fragment. */
  lemma FragmentHasNoDanglingRefs(paths: Node, all: Schemas, out: Schemas, name: string)
    requires IsResolution(paths, all, out)
    requires name in all.body
    requires Mentions(paths, name) || MentionedWithin(out, name)
    ensures name in out.body && out.body[name] == all.body[name]
  {
    if Mentions(paths, name) {
      FirstLink(paths, all.body, name);
    } else {
      var user :| user in out.body && Mentions(out.body[user], name);
      OneMoreLink(paths, all.body, user, name);
    }
  }

  /** What is reachable in the whole specification stays reachable within the fragment. */
  lemma {:induction false} ReachedSurvives(paths: Node, all: Schemas, out: Schemas, name: string, links: nat)
    requires IsResolution(paths, all, out)
    requires ReachedIn(paths, all.body, name, links)
    ensures ReachedIn(paths, out.body, name, links)
    decreases links
  {
    hide Mentions;
    if links > 0 {
      var user :| ReachedIn(paths, all.body, user, links - 1) && user in all.body && Mentions(all.body[user], name);
      ReachedSurvives(paths, all, out, user, links - 1);
      assert user in out.body;
    }
  }

  /** Resolving against a fragment's own schemas gives the same fragment: nothing is missing, nothing spare. */
  lemma ResolutionIsStable(paths: Node, all: Schemas, out: Schemas, again: Schemas)
    requires all.Valid()
    requires IsResolution(paths, all, out) && IsResolution(paths, out, again)
    ensures again == out
  {
    hide Mentions, ReachedIn, Kept;
    forall name | name in out.body ensures name in again.body {
      var links: nat :| ReachedIn(paths, all.body, name, links);
      ReachedSurvives(paths, all, out, name, links);
    }
    assert again.body.Keys == out.body.Keys;
    KeptMembers(all.order, out.body.Keys);
    KeptAll(out.order, out.body.Keys);
  }

  lemma {:induction false} KeptAll(order: seq<string>, names: set<string>)
    requires forall name :: name in order ==> name in names
    ensures Kept(order, names) == order
  {
    if order != [] {
      KeptAll(order[1..], names);
      assert order == [order[0]] + order[1..];
    }
  }

  /** The schema part of `build_fragment`: the key is left out when nothing is needed. */
  method FragmentSchemas(paths: Node, full: Option<Schemas>) returns (components: Option<Schemas>)
    requires full.Some? ==> full.value.Valid()
    ensures components.Some? <==>
              full.Some? && exists name :: name in full.value.body && Reachable(paths, full.value.body, name)
    ensures components.Some? ==> IsResolution(paths, full.value, components.value)
  {
    var all := if full.Some? then full.value else Schemas([], map[]);
    var schemas := ResolveSchemas(paths, all);
    if |schemas.body| > 0 {
      var name :| name in schemas.body.Keys;
      components := Some(schemas);
    } else {
      components := None;
      assert forall name :: name !in schemas.body;
    }
  }
}
