/** `check-structure.measure_reach`: the documents no chain of links leads to. */
module Reach {
  import opened Text
  import opened Order

  const ROOT: string := "AGENTS.md"
  const REACH_SKIP: set<string> := {"CLAUDE.md", ".github/PULL_REQUEST_TEMPLATE.md",
      ".github/ISSUE_TEMPLATE/hosting.md"}

  predicate IsDoc(path: string) {
    |path| >= 3 && path[|path| - 3..] == ".md" && path !in REACH_SKIP
  }

  function Docs(files: seq<string>): set<string> { set p | p in files && IsDoc(p) }

  /** The documents are the tracked Markdown files but the three that are skipped. */
  lemma {:induction false} DocsAreMarkdown(files: seq<string>, path: string)
    ensures path in Docs(files)
       <==> path in files && (exists front :: path == front + ".md") && path != "CLAUDE.md"
            && path != ".github/PULL_REQUEST_TEMPLATE.md" && path != ".github/ISSUE_TEMPLATE/hosting.md"
  {
    if |path| >= 3 && path[|path| - 3..] == ".md" {
      assert path == path[..|path| - 3] + ".md";
    }
  }

  /** The resolved targets of a document's links, in the order they stand in it. */
  type Links = map<string, seq<string>>

  function Targets(links: Links, path: string): seq<string> { if path in links then links[path] else [] }

  /** A chain of documents from the root, each linked from the one before it. */
  ghost predicate Trail(docs: set<string>, links: Links, trail: seq<string>) {
    && |trail| > 0 && trail[0] == "AGENTS.md"
    && (forall k :: 0 <= k < |trail| ==> trail[k] in docs)
    && (forall k :: 0 < k < |trail| ==> trail[k] in Targets(links, trail[k - 1]))
  }

  ghost predicate Reachable(docs: set<string>, links: Links, path: string) {
    exists trail :: Trail(docs, links, trail) && trail[|trail| - 1] == path
  }

  lemma {:induction false} ReachOn(docs: set<string>, links: Links, path: string, target: string)
    requires Reachable(docs, links, path) && target in Targets(links, path) && target in docs
    ensures Reachable(docs, links, target)
  {
    var trail :| Trail(docs, links, trail) && trail[|trail| - 1] == path;
    var longer := trail + [target];
    assert Trail(docs, links, longer) && longer[|longer| - 1] == target;
  }

  /** A set that holds the root and every document linked from it holds every trail's end. */
  lemma {:induction false} TrailStays(docs: set<string>, links: Links, seen: set<string>, trail: seq<string>)
    requires Trail(docs, links, trail) && ROOT in seen
    requires forall p, t :: p in seen && t in Targets(links, p) && t in docs ==> t in seen
    ensures trail[|trail| - 1] in seen
  {
    if |trail| > 1 {
      var shorter := trail[..|trail| - 1];
      assert Trail(docs, links, shorter);
      TrailStays(docs, links, seen, shorter);
      assert trail[|trail| - 1] in Targets(links, shorter[|shorter| - 1]);
    }
  }

  /** Exactly the unreachable documents are reported, whatever cycles, repeats and links out of
      the set there are; every round sees a new document or shortens the stack. */
  method MeasureReach(files: seq<string>, links: Links) returns (missing: seq<string>)
    ensures Increasing(missing)
    ensures forall p :: p in missing <==> p in Docs(files) && !Reachable(Docs(files), links, p)
  {
    var docs := Docs(files);
    var seen: set<string> := {};
    var todo := [ROOT];
    assert Trail(docs, links, [ROOT]) || ROOT !in docs;
    while todo != []
      invariant seen <= docs
      invariant ROOT in docs ==> ROOT in seen || ROOT in todo
      invariant forall p :: p in seen ==> Reachable(docs, links, p)
      invariant forall p :: p in todo && p in docs ==> Reachable(docs, links, p)
      invariant forall p, t :: p in seen && t in Targets(links, p) && t in docs ==> t in seen || t in todo
      decreases docs - seen, |todo|
    {
      ghost var before := todo;
      var path := todo[|todo| - 1];
      todo := todo[..|todo| - 1];
      assert forall t :: t in before <==> t == path || t in todo;
      if path in seen || path !in docs {
        continue;
      }
      seen := seen + {path};
      forall t | t in Targets(links, path) && t in docs ensures Reachable(docs, links, t) {
        ReachOn(docs, links, path, t);
      }
      todo := todo + Targets(links, path);
    }
    forall p | p in docs ensures p in seen <==> Reachable(docs, links, p) {
      if Reachable(docs, links, p) {
        var trail :| Trail(docs, links, trail) && trail[|trail| - 1] == p;
        TrailStays(docs, links, seen, trail);
      }
    }
    missing := Sorted(docs - seen);
  }
}
