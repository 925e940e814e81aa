/**
 * The protobuf descriptor set both MCAP writers store as a channel schema:
 * starting from the .proto file that declares the message type, every file is
 * added after the files it imports, and an import already seen is skipped.
 * Files are identified by name; the import lists come from the protobuf
 * descriptor pool, which is a parameter here.
 */
module Descriptors {

  /** For each .proto file name, the names of the files it imports, in order. */
  type ImportGraph = map<string, seq<string>>

  /**
   * Every import is itself a file of the graph and ranks strictly below its
   * importer: a rank function exists exactly when the import graph is acyclic,
   * which protobuf requires of its files.
   */
  ghost predicate Ranked(g: ImportGraph, rank: map<string, nat>)
  {
    (forall f :: f in g ==> f in rank) &&
    (forall f, d :: f in g && d in g[f] ==> d in g && d in rank && rank[d] < rank[f])
  }

  /** The file f together with everything it imports, directly or indirectly. */
  ghost function Reach(g: ImportGraph, rank: map<string, nat>, f: string): set<string>
    requires Ranked(g, rank) && f in g
    decreases rank[f]
  {
    {f} + (set d, x | d in g[f] && x in Reach(g, rank, d) :: x)
  }

  /** No file occurs twice. */
  predicate Unique(files: seq<string>)
  {
    forall i, j :: 0 <= i < j < |files| ==> files[i] != files[j]
  }

  /** Every listed file is a file of the graph and all its imports are listed before it. */
  predicate DepsFirst(g: ImportGraph, files: seq<string>)
  {
    forall i :: 0 <= i < |files| ==> files[i] in g && forall d :: d in g[files[i]] ==> d in files[..i]
  }

  /** Everything reachable from a file lies no higher in the ranking than the file itself. */
  lemma {:induction false} ReachRank(g: ImportGraph, rank: map<string, nat>, f: string, x: string)
    requires Ranked(g, rank) && f in g && x in Reach(g, rank, f)
    ensures x in g && rank[x] <= rank[f]
    decreases rank[f]
  {
    if x != f {
      var d :| d in g[f] && x in Reach(g, rank, d);
      ReachRank(g, rank, d, x);
    }
  }

  /** A list that has every file's imports before it holds everything its members reach. */
  lemma {:induction false} ReachListed(g: ImportGraph, rank: map<string, nat>, files: seq<string>, f: string, x: string)
    requires Ranked(g, rank) && DepsFirst(g, files) && f in files && x in Reach(g, rank, f)
    ensures x in files
    decreases rank[f]
  {
    if x != f {
      var d :| d in g[f] && x in Reach(g, rank, d);
      var i :| 0 <= i < |files| && files[i] == f;
      assert d in files[..i];
      ReachListed(g, rank, files, d, x);
    }
  }

  /** Every element of xs is listed in files. */
  predicate Listed(xs: seq<string>, files: seq<string>)
  {
    forall j :: 0 <= j < |xs| ==> xs[j] in files
  }

  /** The files listed from position n on are all reached from f, and none is f itself. */
  ghost predicate AddedFor(g: ImportGraph, rank: map<string, nat>, files: seq<string>, n: nat, f: string)
    requires Ranked(g, rank) && f in g
  {
    n <= |files| && forall x :: x in files[n..] ==> x in Reach(g, rank, f) && x != f
  }

  /** Adding a file whose imports are all listed keeps the list unique and dependency-first. */
  lemma AddFile(g: ImportGraph, files: seq<string>, fd: string)
    requires Unique(files) && DepsFirst(g, files) && fd in g && fd !in files
    requires forall d :: d in g[fd] ==> d in files
    ensures Unique(files + [fd]) && DepsFirst(g, files + [fd])
  {
    var files' := files + [fd];
    forall i | 0 <= i < |files'|
      ensures files'[i] in g && forall d :: d in g[files'[i]] ==> d in files'[..i]
    {
      if i < |files| {
        assert files'[..i] == files[..i];
      } else {
        assert files'[..i] == files;
      }
    }
  }

  /** Extending a list keeps whatever was listed in it. */
  lemma ListedExtended(xs: seq<string>, before: seq<string>, files: seq<string>)
    requires Listed(xs, before) && |before| <= |files| && files[..|before|] == before
    ensures Listed(xs, files)
  {
    forall j | 0 <= j < |xs| ensures xs[j] in files {
      var i :| 0 <= i < |before| && before[i] == xs[j];
      assert files[i] == before[i];
    }
  }

  /** Files added while visiting an import of f are reached from f and are not f. */
  lemma AddedForImport(g: ImportGraph, rank: map<string, nat>, f: string, dep: string,
                       before: seq<string>, files: seq<string>, n: nat)
    requires Ranked(g, rank) && f in g && dep in g[f]
    requires AddedFor(g, rank, before, n, f)
    requires |before| <= |files| && files[..|before|] == before
    requires forall x :: x in files[|before|..] ==> x in Reach(g, rank, dep)
    ensures AddedFor(g, rank, files, n, f)
  {
    forall x | x in files[n..] ensures x in Reach(g, rank, f) && x != f {
      var i :| n <= i < |files| && files[i] == x;
      if i < |before| {
        assert before[i] == x && x in before[n..];
      } else {
        assert x in files[|before|..];
        ReachRank(g, rank, dep, x);
      }
    }
  }

  /** The file itself, added after what its visit added, is reached from itself. */
  lemma AddedThenSelf(g: ImportGraph, rank: map<string, nat>, before: seq<string>, n: nat, f: string)
    requires Ranked(g, rank) && f in g && AddedFor(g, rank, before, n, f)
    ensures forall x :: x in (before + [f])[n..] ==> x in Reach(g, rank, f)
  {
    assert (before + [f])[n..] == before[n..] + [f];
  }

  /** Once a file and all its imports are listed dependency-first, all it reaches is listed. */
  lemma ReachAllListed(g: ImportGraph, rank: map<string, nat>, files: seq<string>, f: string)
    requires Ranked(g, rank) && DepsFirst(g, files) && f in g && f in files && Listed(g[f], files)
    ensures forall x :: x in Reach(g, rank, f) ==> x in files
  {
    forall x | x in Reach(g, rank, f) ensures x in files {
      if x != f {
        var d :| d in g[f] && x in Reach(g, rank, d);
        ReachListed(g, rank, files, d, x);
      }
    }
  }

  /**
   * The state of one _build_file_descriptor_set call: the set of dependency
   * names already seen and the files added to the descriptor set so far.
   */
  class DescriptorSetBuilder {
    const graph: ImportGraph
    ghost const rank: map<string, nat>
    /** The file of the message type; it is never put into the seen set. */
    ghost const root: string
    var seen: set<string>
    var files: seq<string>

    /** The invariant every traversal step keeps. */
    ghost predicate Valid()
      reads this
    {
      Ranked(graph, rank) && root in graph &&
      Unique(files) && DepsFirst(graph, files) && SeenCovers()
    }

    /** Only the root can be listed without having been seen. */
    ghost predicate SeenCovers()
      reads this
    {
      forall x :: x in files ==> x in seen || x == root
    }

    /** Every seen file that is not listed yet is one whose visit is in progress. */
    ghost predicate InProgress(pending: set<string>)
      reads this
    {
      forall x :: x in seen && x !in files ==> x in pending
    }

    constructor(graph: ImportGraph, ghost rank: map<string, nat>, ghost root: string)
      requires Ranked(graph, rank) && root in graph
      ensures Valid()
      ensures this.graph == graph && this.rank == rank && this.root == root
      ensures seen == {} && files == []
    {
      this.graph := graph;
      this.rank := rank;
      this.root := root;
      seen := {};
      files := [];
    }

    /**
     * append_file_descriptor: visit every import not seen yet (marking it seen
     * first), then add the file itself.  `pending` holds the files whose visit
     * is still in progress further up the recursion; they rank above fd.
     */
    method AppendFileDescriptor(fd: string, ghost pending: set<string>)
      requires Valid() && fd in graph && (fd == root || rank[fd] < rank[root])
      requires fd !in files && (fd in seen || fd == root)
      requires InProgress(pending + {fd})
      requires forall p :: p in pending ==> p in graph && rank[p] > rank[fd]
      modifies this
      decreases rank[fd], 2
      ensures Valid() && seen >= old(seen)
      ensures |files| > |old(files)| && files[..|old(files)|] == old(files) && files[|files| - 1] == fd
      ensures forall x :: x in files[|old(files)|..] ==> x in Reach(graph, rank, fd)
      ensures forall x :: x in Reach(graph, rank, fd) ==> x in files
      ensures InProgress(pending)
    {
      VisitImports(fd, pending);
      AddFile(graph, files, fd);
      AddedThenSelf(graph, rank, files, |old(files)|, fd);
      files := files + [fd];
      ListedExtended(graph[fd], files[..|files| - 1], files);
      ReachAllListed(graph, rank, files, fd);
    }

    /** The loop of append_file_descriptor over the imports of fd, before fd itself is added. */
    method VisitImports(fd: string, ghost pending: set<string>)
      requires Valid() && fd in graph && (fd == root || rank[fd] < rank[root])
      requires fd !in files && (fd in seen || fd == root)
      requires InProgress(pending + {fd})
      requires forall p :: p in pending ==> p in graph && rank[p] > rank[fd]
      modifies this
      decreases rank[fd], 1
      ensures Valid() && seen >= old(seen) && fd in seen + {root}
      ensures |files| >= |old(files)| && files[..|old(files)|] == old(files)
      ensures AddedFor(graph, rank, files, |old(files)|, fd)
      ensures Listed(graph[fd], files)
      ensures fd !in files
      ensures InProgress(pending + {fd})
    {
      var deps := graph[fd];
      var k := 0;
      while k < |deps|
        invariant 0 <= k <= |deps|
        invariant Valid() && seen >= old(seen) && fd in seen + {root}
        invariant |files| >= |old(files)| && files[..|old(files)|] == old(files)
        invariant AddedFor(graph, rank, files, |old(files)|, fd)
        invariant Listed(deps[..k], files)
        invariant fd !in files
        invariant InProgress(pending + {fd})
      {
        ghost var before := files;
        VisitImport(fd, deps[k], pending, |old(files)|);
        ListedExtended(deps[..k], before, files);
        assert files[..|old(files)|] == before[..|old(files)|];
        assert deps[..k + 1] == deps[..k] + [deps[k]];
        k := k + 1;
      }
      assert deps[..k] == deps;
    }

    /** One round of that loop: an import not seen yet is marked seen and visited; afterwards it is listed. */
    method VisitImport(fd: string, dep: string, ghost pending: set<string>, ghost n: nat)
      requires Valid() && fd in graph && (fd == root || rank[fd] < rank[root]) && dep in graph[fd]
      requires fd !in files && fd in seen + {root}
      requires InProgress(pending + {fd})
      requires forall p :: p in pending ==> p in graph && rank[p] > rank[fd]
      requires AddedFor(graph, rank, files, n, fd)
      modifies this
      decreases rank[fd], 0
      ensures Valid() && seen >= old(seen) && fd in seen + {root}
      ensures |files| >= |old(files)| && files[..|old(files)|] == old(files)
      ensures AddedFor(graph, rank, files, n, fd)
      ensures dep in files && fd !in files
      ensures InProgress(pending + {fd})
    {
      if dep !in seen {
        seen := seen + {dep};
        ghost var before := files;
        AppendFileDescriptor(dep, pending + {fd});
        AddedForImport(graph, rank, fd, dep, before, files, n);
      }
    }
  }

  /**
   * The descriptor set of a message type's file: the file itself comes last,
   * no file occurs twice, every file follows all the files it imports, and
   * the files are exactly those the root reaches through its imports.
   */
  ghost predicate DescriptorSetOf(g: ImportGraph, rank: map<string, nat>, root: string, files: seq<string>)
    requires Ranked(g, rank) && root in g
  {
    files != [] && files[|files| - 1] == root &&
    Unique(files) && DepsFirst(g, files) &&
    forall x :: x in files <==> x in Reach(g, rank, root)
  }

  /**
   * _build_file_descriptor_set: the files of the descriptor set, in the order
   * they are added, starting the traversal at the message type's file.
   */
  method BuildFileDescriptorSet(g: ImportGraph, ghost rank: map<string, nat>, root: string)
    returns (files: seq<string>)
    requires Ranked(g, rank) && root in g
    ensures DescriptorSetOf(g, rank, root, files)
  {
    var builder := new DescriptorSetBuilder(g, rank, root);
    builder.AppendFileDescriptor(root, {});
    files := builder.files;
  }
}
