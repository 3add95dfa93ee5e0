/** `_repo_endpoints` of `ges_rpc_methods.py`: one entry per commit that a
    tag, a branch or `HEAD` points at, carrying the names pointing at it,
    listed newest first by the text of its commit time. */
module RepoEndpoints {
  import opened Wrappers
  import opened Json
  import opened RepoStore
  import opened Seqs

  /** Python's ordering of two strings: code point by code point, a proper
      prefix first. */
  predicate StrLe(a: string, b: string)
    decreases |a|
  {
    a == [] || (b != [] && (a[0] < b[0] || (a[0] == b[0] && StrLe(a[1..], b[1..]))))
  }

  lemma {:induction false} StrLeTotal(a: string, b: string)
    ensures StrLe(a, b) || StrLe(b, a)
    decreases |a|
  {
    if a != [] && b != [] && a[0] == b[0] {
      StrLeTotal(a[1..], b[1..]);
    }
  }

  lemma {:induction false} StrLeTrans(a: string, b: string, c: string)
    requires StrLe(a, b) && StrLe(b, c)
    ensures StrLe(a, c)
    decreases |a|
  {
    if a != [] && a[0] == b[0] && b[0] == c[0] {
      StrLeTrans(a[1..], b[1..], c[1..]);
    }
  }

  /** One element of the endpoint list. */
  datatype Endpoint = Endpoint(
    id: string, time: string, authTime: string, author: string, authorEmail: string,
    summary: string, tags: seq<string>, branches: seq<string>)

  /** Newest first: no entry's time text sorts after an earlier entry's. */
  predicate NewestFirst(s: seq<Endpoint>) {
    forall i, j :: 0 <= i < j < |s| ==> StrLe(s[j].time, s[i].time)
  }

  /** `e` put into the newest-first list `s` after every entry whose time is
      not earlier, so equal times keep their order. */
  function InsertByTime(s: seq<Endpoint>, e: Endpoint): (r: seq<Endpoint>)
    requires NewestFirst(s)
    ensures NewestFirst(r)
    ensures multiset(r) == multiset(s) + multiset{e}
    ensures |r| == |s| + 1
    decreases |s|
  {
    if s == [] then [e]
    else
      var last := s[|s| - 1];
      if StrLe(e.time, last.time) then
        OldestAppended(s, e);
        s + [e]
      else
        assert s == s[..|s| - 1] + [last];
        var front := InsertByTime(s[..|s| - 1], e);
        LastStaysLast(s, e, front);
        front + [last]
  }

  /** An entry no newer than the oldest of a newest-first list may follow
      it. */
  lemma OldestAppended(s: seq<Endpoint>, e: Endpoint)
    requires NewestFirst(s) && s != []
    requires StrLe(e.time, s[|s| - 1].time)
    ensures NewestFirst(s + [e])
  {
    forall i | 0 <= i < |s|
      ensures StrLe(e.time, s[i].time)
    {
      if i < |s| - 1 {
        StrLeTrans(e.time, s[|s| - 1].time, s[i].time);
      }
    }
  }

  /** When `e` is newer than the oldest entry, that entry stays last after
      `e` has gone into the rest. */
  lemma LastStaysLast(s: seq<Endpoint>, e: Endpoint, front: seq<Endpoint>)
    requires NewestFirst(s) && s != []
    requires !StrLe(e.time, s[|s| - 1].time)
    requires NewestFirst(front)
    requires multiset(front) == multiset(s[..|s| - 1]) + multiset{e}
    ensures NewestFirst(front + [s[|s| - 1]])
  {
    var last := s[|s| - 1];
    StrLeTotal(e.time, last.time);
    forall i | 0 <= i < |front|
      ensures StrLe(last.time, front[i].time)
    {
      assert front[i] in multiset(front);
      if front[i] != e {
        assert front[i] in multiset(s[..|s| - 1]);
        var k :| 0 <= k < |s| - 1 && s[k] == front[i];
      }
    }
  }

  /** `list.sort(cmp=<by time>, reverse=True)`: a stable sort, newest
      first. */
  function SortByTime(s: seq<Endpoint>): (r: seq<Endpoint>)
    ensures NewestFirst(r)
    ensures |r| == |s|
    ensures multiset(r) == multiset(s)
    decreases |s|
  {
    if s == [] then []
    else
      assert s == s[..|s| - 1] + [s[|s| - 1]];
      InsertByTime(SortByTime(s[..|s| - 1]), s[|s| - 1])
  }

  /** Every tag resolves to a commit, every branch's commit exists and so
      does `HEAD`; otherwise the library raises part way. */
  predicate Listable(repo: Repo) {
    && (forall i | 0 <= i < |repo.tags| :: ResolveCommit(repo, repo.tags[i]).Some?)
    && (forall i | 0 <= i < |repo.branches| :: repo.branches[i].commitId in repo.commits)
    && ResolveCommit(repo, "HEAD").Some?
  }

  /** The commit ids the tags point at, in tag order. */
  function TagIds(repo: Repo, tags: seq<string>): (r: seq<string>)
    ensures |r| == |tags|
  {
    seq(|tags|, i requires 0 <= i < |tags| => ResolveCommit(repo, tags[i]).GetOr(""))
  }

  function BranchIds(branches: seq<Branch>): (r: seq<string>)
    ensures |r| == |branches|
  {
    seq(|branches|, i requires 0 <= i < |branches| => branches[i].commitId)
  }

  /** The ids a tag or a branch points at. */
  function RefIds(repo: Repo): seq<string>
    requires Listable(repo)
  {
    TagIds(repo, repo.tags) + BranchIds(repo.branches)
  }

  /** `s` without repetitions, each id where it first occurs. */
  function FirstSeen(s: seq<string>): (r: seq<string>)
    ensures forall x :: x in r <==> x in s
    ensures forall i, j :: 0 <= i < j < |r| ==> r[i] != r[j]
    decreases |s|
  {
    if s == [] then []
    else
      var f := FirstSeen(s[..|s| - 1]);
      assert s == s[..|s| - 1] + [s[|s| - 1]];
      if s[|s| - 1] in f then f else f + [s[|s| - 1]]
  }

  /** The names among `tags` that point at `id`, in order. */
  function TagsAt(repo: Repo, tags: seq<string>, id: string): (r: seq<string>)
    ensures forall t :: t in r <==> t in tags && ResolveCommit(repo, t) == Some(id)
    decreases |tags|
  {
    if tags == [] then []
    else
      var last := tags[|tags| - 1];
      assert tags == tags[..|tags| - 1] + [last];
      TagsAt(repo, tags[..|tags| - 1], id) + (if ResolveCommit(repo, last) == Some(id) then [last] else [])
  }

  /** The names among `branches` whose head is `id`, in order. */
  function BranchesAt(branches: seq<Branch>, id: string): (r: seq<string>)
    ensures forall n :: n in r <==> Branch(n, id) in branches
    decreases |branches|
  {
    if branches == [] then []
    else
      var last := branches[|branches| - 1];
      assert branches == branches[..|branches| - 1] + [last];
      BranchesAt(branches[..|branches| - 1], id) + (if last.commitId == id then [last.name] else [])
  }

  /** Where `HEAD` points. */
  function HeadId(repo: Repo): string
    requires Listable(repo)
  {
    ResolveCommit(repo, "HEAD").value
  }

  /** `HEAD` is listed as a branch of its commit only when no tag or branch
      gave that commit an entry (an entry with an empty id counts as
      none). */
  predicate HeadListed(repo: Repo)
    requires Listable(repo)
  {
    HeadId(repo) !in RefIds(repo) || HeadId(repo) == ""
  }

  /** The entry for commit `id` once the names `tags` and `branches` have
      been collected for it; `asctime` formats a commit date. */
  function Filled(repo: Repo, asctime: int -> string, id: string, tags: seq<string>,
                  branches: seq<string>): Endpoint
    requires id in repo.commits
  {
    var c := repo.commits[id];
    Endpoint(id, asctime(c.committedDate) + " UTC", asctime(c.authoredDate) + " UTC",
             c.author, c.authorEmail, c.summary, tags, branches)
  }

  /** The entry for commit `id`: every tag and branch pointing at it, and
      `HEAD` when that is listed. */
  function EntryFor(repo: Repo, asctime: int -> string, id: string): (e: Endpoint)
    requires Listable(repo) && id in repo.commits
    ensures e.id == id
    ensures e.tags == TagsAt(repo, repo.tags, id)
    ensures e.branches == BranchesAt(repo.branches, id) + (if id == HeadId(repo) && HeadListed(repo) then ["HEAD"] else [])
    ensures forall t :: t in e.tags <==> t in repo.tags && ResolveCommit(repo, t) == Some(id)
    ensures forall n :: n != "HEAD" ==> (n in e.branches <==> Branch(n, id) in repo.branches)
    ensures "HEAD" in e.branches <==> Branch("HEAD", id) in repo.branches || (id == HeadId(repo) && HeadListed(repo))
  {
    Filled(repo, asctime, id, TagsAt(repo, repo.tags, id),
           BranchesAt(repo.branches, id) + (if id == HeadId(repo) && HeadListed(repo) then ["HEAD"] else []))
  }

  /** The distinct commits with an entry, in the order they were first met
      (tags, then branches, then `HEAD`). */
  function EntryIds(repo: Repo): (r: seq<string>)
    requires Listable(repo)
    ensures forall x :: x in r <==> x in RefIds(repo) || x == HeadId(repo)
    ensures forall i, j :: 0 <= i < j < |r| ==> r[i] != r[j]
    ensures forall x :: x in r ==> x in repo.commits
  {
    FirstSeen(RefIds(repo) + [HeadId(repo)])
  }

  /** The entries of all commits with one, in the order they were met. */
  function Unsorted(repo: Repo, asctime: int -> string): (r: seq<Endpoint>)
    requires Listable(repo)
    ensures |r| == |EntryIds(repo)|
    ensures forall i | 0 <= i < |r| :: r[i] == EntryFor(repo, asctime, EntryIds(repo)[i])
  {
    var ids := EntryIds(repo);
    seq(|ids|, i requires 0 <= i < |ids| => EntryFor(repo, asctime, ids[i]))
  }

  /** The endpoint list: the entries, newest first. */
  function Endpoints(repo: Repo, asctime: int -> string): (r: seq<Endpoint>)
    requires Listable(repo)
    ensures NewestFirst(r)
    ensures multiset(r) == multiset(Unsorted(repo, asctime))
  {
    SortByTime(Unsorted(repo, asctime))
  }

  /** Every element of the list is the entry of its commit: every tag and
      branch pointing at it, and `HEAD` where that is listed. */
  lemma EndpointsAreEntries(repo: Repo, asctime: int -> string)
    requires Listable(repo)
    ensures forall e :: e in Endpoints(repo, asctime) ==>
      e.id in EntryIds(repo) && e == EntryFor(repo, asctime, e.id)
  {
    var u := Unsorted(repo, asctime);
    forall e | e in Endpoints(repo, asctime)
      ensures e.id in EntryIds(repo) && e == EntryFor(repo, asctime, e.id)
    {
      assert e in multiset(Endpoints(repo, asctime));
      assert e in multiset(u);
      var i :| 0 <= i < |u| && u[i] == e;
    }
  }

  /** Each commit a tag, a branch or `HEAD` points at has exactly one
      entry in the list. */
  lemma EndpointsOncePerCommit(repo: Repo, asctime: int -> string, id: string)
    requires Listable(repo)
    requires id in RefIds(repo) || id == HeadId(repo)
    ensures multiset(Endpoints(repo, asctime))[EntryFor(repo, asctime, id)] == 1
  {
    var ids := EntryIds(repo);
    var k :| 0 <= k < |ids| && ids[k] == id;
    DistinctIdsOnce(repo, asctime, ids, k);
    assert Unsorted(repo, asctime) == seq(|ids|, i requires 0 <= i < |ids| => EntryFor(repo, asctime, ids[i]));
  }

  /** The entry of the `k`-th of distinct ids occurs once among the entries
      of all of them. */
  lemma {:induction false} DistinctIdsOnce(repo: Repo, asctime: int -> string, ids: seq<string>, k: nat)
    requires Listable(repo)
    requires k < |ids|
    requires forall x :: x in ids ==> x in repo.commits
    requires forall i, j :: 0 <= i < j < |ids| ==> ids[i] != ids[j]
    ensures multiset(seq(|ids|, i requires 0 <= i < |ids| => EntryFor(repo, asctime, ids[i])))[EntryFor(repo, asctime, ids[k])] == 1
    decreases |ids|
  {
    var u := seq(|ids|, i requires 0 <= i < |ids| => EntryFor(repo, asctime, ids[i]));
    var n := |ids| - 1;
    var front := seq(n, i requires 0 <= i < n => EntryFor(repo, asctime, ids[..n][i]));
    assert u == front + [u[n]];
    var e := EntryFor(repo, asctime, ids[k]);
    if k == n {
      forall i | 0 <= i < n
        ensures front[i] != e
      {
        assert front[i].id == ids[i];
      }
      assert multiset(front)[e] == 0;
    } else {
      DistinctIdsOnce(repo, asctime, ids[..n], k);
      assert ids[..n][k] == ids[k];
      assert u[n].id == ids[n];
    }
  }

  /** One element of the list as the reply carries it. */
  function EndpointJson(e: Endpoint): Json {
    Obj(map[
      "id" := Str(e.id), "time" := Str(e.time), "auth_time" := Str(e.authTime),
      "author" := Str(e.author), "author_email" := Str(e.authorEmail),
      "summary" := Str(e.summary),
      "tags" := Arr(seq(|e.tags|, i requires 0 <= i < |e.tags| => Str(e.tags[i]))),
      "branches" := Arr(seq(|e.branches|, i requires 0 <= i < |e.branches| => Str(e.branches[i])))])
  }

  /** The `('repo', {...})` pair `_repo_endpoints` returns. */
  function EndpointsReply(repo: Repo, asctime: int -> string): (string, Json)
    requires Listable(repo)
  {
    var es := Endpoints(repo, asctime);
    ("repo", Obj(map[
      "endpoints" := Arr(seq(|es|, i requires 0 <= i < |es| => EndpointJson(es[i]))),
      "description" := Str(repo.description)]))
  }

  /** `_repo_endpoints_helper(data, commit)`: the commit's own fields. */
  function WithCommit(e: Endpoint, id: string, c: CommitInfo, asctime: int -> string): Endpoint {
    e.(id := id, time := asctime(c.committedDate) + " UTC",
       authTime := asctime(c.authoredDate) + " UTC", author := c.author,
       authorEmail := c.authorEmail, summary := c.summary)
  }

  /** A fresh entry of the `defaultdict`, before the helper fills it in. */
  const Blank := Endpoint("", "", "", "", "", "", [], [])

  /** The table after tag `t`, pointing at `id`, has been recorded. */
  function AddTag(repo: Repo, asctime: int -> string, table: map<string, Endpoint>, id: string, t: string): map<string, Endpoint>
    requires id in repo.commits
  {
    var e := if id in table then table[id] else Blank;
    table[id := WithCommit(e, id, repo.commits[id], asctime).(tags := e.tags + [t])]
  }

  /** The table after branch `b` has been recorded. */
  function AddBranch(repo: Repo, asctime: int -> string, table: map<string, Endpoint>, b: Branch): map<string, Endpoint>
    requires b.commitId in repo.commits
  {
    var id := b.commitId;
    var e := if id in table then table[id] else Blank;
    table[id := WithCommit(e, id, repo.commits[id], asctime).(branches := e.branches + [b.name])]
  }

  /** The key order of the dictionary after `id` has been stored. */
  function Seen(order: seq<string>, id: string): seq<string> {
    if id in order then order else order + [id]
  }

  /** No tag points at a commit outside the tags' ids. */
  lemma {:induction false} NoTagsAt(repo: Repo, tags: seq<string>, id: string)
    requires id !in TagIds(repo, tags)
    ensures TagsAt(repo, tags, id) == []
    decreases |tags|
  {
    if tags != [] {
      var n := |tags| - 1;
      assert TagIds(repo, tags) == TagIds(repo, tags[..n]) + [TagIds(repo, tags)[n]];
      NoTagsAt(repo, tags[..n], id);
    }
  }

  /** No branch points at a commit outside the branches' ids. */
  lemma {:induction false} NoBranchesAt(branches: seq<Branch>, id: string)
    requires id !in BranchIds(branches)
    ensures BranchesAt(branches, id) == []
    decreases |branches|
  {
    if branches != [] {
      var n := |branches| - 1;
      assert BranchIds(branches) == BranchIds(branches[..n]) + [BranchIds(branches)[n]];
      NoBranchesAt(branches[..n], id);
    }
  }

  /** The dictionary's keys are exactly the ids in `order`. */
  predicate KeysAre(table: map<string, Endpoint>, order: seq<string>) {
    (forall x | x in table :: x in order) && (forall x | x in order :: x in table)
  }

  /** The table after the tags: an entry for each commit a tag points at,
      holding those tags. */
  predicate AfterTags(repo: Repo, asctime: int -> string, tags: seq<string>,
                      table: map<string, Endpoint>, order: seq<string>)
  {
    && order == FirstSeen(TagIds(repo, tags))
    && KeysAre(table, order)
    && TagEntries(repo, asctime, tags, table)
  }

  /** Each entry holds the `tags` pointing at it. */
  predicate TagEntries(repo: Repo, asctime: int -> string, tags: seq<string>, table: map<string, Endpoint>) {
    forall k | k in table :: (k in repo.commits && table[k] == Filled(repo, asctime, k, TagsAt(repo, tags, k), []))
  }

  /** The table after the tags and `branches`. */
  predicate AfterBranches(repo: Repo, asctime: int -> string, branches: seq<Branch>,
                          table: map<string, Endpoint>, order: seq<string>)
  {
    && order == FirstSeen(TagIds(repo, repo.tags) + BranchIds(branches))
    && KeysAre(table, order)
    && BranchEntries(repo, asctime, branches, table)
  }

  /** Each entry holds the tags and the `branches` pointing at it. */
  predicate BranchEntries(repo: Repo, asctime: int -> string, branches: seq<Branch>,
                          table: map<string, Endpoint>)
  {
    forall k | k in table ::
      (k in repo.commits && table[k] == Filled(repo, asctime, k, TagsAt(repo, repo.tags, k), BranchesAt(branches, k)))
  }

  /** The loop over the tags. */
  method CollectTags(repo: Repo, asctime: int -> string)
    returns (table: map<string, Endpoint>, order: seq<string>)
    requires Listable(repo)
    ensures AfterTags(repo, asctime, repo.tags, table, order)
  {
    table := map[];
    order := [];
    for i := 0 to |repo.tags|
      invariant AfterTags(repo, asctime, repo.tags[..i], table, order)
    {
      var t := repo.tags[i];
      var id := ResolveCommit(repo, t).value;
      TagStepAt(repo, asctime, i, table, order);
      table, order := AddTag(repo, asctime, table, id, t), Seen(order, id);
    }
    assert repo.tags[..|repo.tags|] == repo.tags;
  }

  /** Step `i` of the loop over the tags. */
  lemma TagStepAt(repo: Repo, asctime: int -> string, i: nat, table: map<string, Endpoint>, order: seq<string>)
    requires i < |repo.tags| && ResolveCommit(repo, repo.tags[i]).Some?
    requires AfterTags(repo, asctime, repo.tags[..i], table, order)
    ensures var id := ResolveCommit(repo, repo.tags[i]).value;
      AfterTags(repo, asctime, repo.tags[..i + 1], AddTag(repo, asctime, table, id, repo.tags[i]), Seen(order, id))
  {
    var t := repo.tags[i];
    var id := ResolveCommit(repo, t).value;
    PrefixSnoc(repo.tags, i);
    TagStep(repo, asctime, repo.tags[..i], t, table, order);
  }

  /** One step of the loop over the tags keeps the table as described. */
  lemma TagStep(repo: Repo, asctime: int -> string, tags: seq<string>, t: string,
                table: map<string, Endpoint>, order: seq<string>)
    requires ResolveCommit(repo, t).Some?
    requires AfterTags(repo, asctime, tags, table, order)
    ensures var id := ResolveCommit(repo, t).value;
      AfterTags(repo, asctime, tags + [t], AddTag(repo, asctime, table, id, t), Seen(order, id))
  {
    var id := ResolveCommit(repo, t).value;
    var tags' := tags + [t];
    assert tags'[..|tags|] == tags;
    assert TagIds(repo, tags') == TagIds(repo, tags) + [id];
    FirstSeenSnoc(TagIds(repo, tags), id);
    if id !in table {
      NoTagsAt(repo, tags, id);
    }
    TagEntriesStep(repo, asctime, tags, t, table);
  }

  /** The entries after one more tag. */
  lemma TagEntriesStep(repo: Repo, asctime: int -> string, tags: seq<string>, t: string,
                       table: map<string, Endpoint>)
    requires ResolveCommit(repo, t).Some?
    requires TagEntries(repo, asctime, tags, table)
    requires ResolveCommit(repo, t).value !in table ==> TagsAt(repo, tags, ResolveCommit(repo, t).value) == []
    ensures TagEntries(repo, asctime, tags + [t], AddTag(repo, asctime, table, ResolveCommit(repo, t).value, t))
  {
    var tags' := tags + [t];
    assert tags'[..|tags|] == tags;
  }

  /** Meeting one more id extends the order of first occurrence by it,
      unless it was seen already. */
  lemma FirstSeenSnoc(s: seq<string>, x: string)
    ensures FirstSeen(s + [x]) == Seen(FirstSeen(s), x)
  {
    assert (s + [x])[..|s|] == s;
  }

  /** After the tags, no branch has been seen. */
  lemma NoBranchesYet(repo: Repo, asctime: int -> string, table: map<string, Endpoint>, order: seq<string>)
    requires AfterTags(repo, asctime, repo.tags, table, order)
    ensures AfterBranches(repo, asctime, [], table, order)
  {
    assert TagIds(repo, repo.tags) + BranchIds([]) == TagIds(repo, repo.tags);
  }

  /** The loop over the branches. */
  method CollectBranches(repo: Repo, asctime: int -> string,
                         table0: map<string, Endpoint>, order0: seq<string>)
    returns (table: map<string, Endpoint>, order: seq<string>)
    requires forall i | 0 <= i < |repo.branches| :: repo.branches[i].commitId in repo.commits
    requires AfterBranches(repo, asctime, [], table0, order0)
    ensures AfterBranches(repo, asctime, repo.branches, table, order)
  {
    table, order := table0, order0;
    for i := 0 to |repo.branches|
      invariant AfterBranches(repo, asctime, repo.branches[..i], table, order)
    {
      BranchStepAt(repo, asctime, i, table, order);
      table, order := AddBranch(repo, asctime, table, repo.branches[i]), Seen(order, repo.branches[i].commitId);
    }
    assert repo.branches[..|repo.branches|] == repo.branches;
  }

  /** Step `i` of the loop over the branches. */
  lemma BranchStepAt(repo: Repo, asctime: int -> string, i: nat, table: map<string, Endpoint>, order: seq<string>)
    requires i < |repo.branches| && repo.branches[i].commitId in repo.commits
    requires AfterBranches(repo, asctime, repo.branches[..i], table, order)
    ensures AfterBranches(repo, asctime, repo.branches[..i + 1], AddBranch(repo, asctime, table, repo.branches[i]),
                          Seen(order, repo.branches[i].commitId))
  {
    PrefixSnoc(repo.branches, i);
    BranchStep(repo, asctime, repo.branches[..i], repo.branches[i], table, order);
  }

  /** One step of the loop over the branches keeps the table as
      described. */
  lemma BranchStep(repo: Repo, asctime: int -> string, branches: seq<Branch>, b: Branch,
                   table: map<string, Endpoint>, order: seq<string>)
    requires b.commitId in repo.commits
    requires AfterBranches(repo, asctime, branches, table, order)
    ensures AfterBranches(repo, asctime, branches + [b], AddBranch(repo, asctime, table, b), Seen(order, b.commitId))
  {
    var id := b.commitId;
    var branches' := branches + [b];
    var tagIds := TagIds(repo, repo.tags);
    assert branches'[..|branches|] == branches;
    assert BranchIds(branches') == BranchIds(branches) + [id];
    assert tagIds + BranchIds(branches') == (tagIds + BranchIds(branches)) + [id];
    if id !in table {
      assert id !in tagIds + BranchIds(branches);
      NoTagsAt(repo, repo.tags, id);
      NoBranchesAt(branches, id);
    }
    BranchEntriesStep(repo, asctime, branches, b, table);
  }

  /** The entries after one more branch. */
  lemma BranchEntriesStep(repo: Repo, asctime: int -> string, branches: seq<Branch>, b: Branch,
                          table: map<string, Endpoint>)
    requires b.commitId in repo.commits
    requires BranchEntries(repo, asctime, branches, table)
    requires b.commitId !in table ==>
      TagsAt(repo, repo.tags, b.commitId) == [] && BranchesAt(branches, b.commitId) == []
    ensures BranchEntries(repo, asctime, branches + [b], AddBranch(repo, asctime, table, b))
  {
    var branches' := branches + [b];
    assert branches'[..|branches|] == branches;
  }

  /** The table after the `HEAD` step: the commit `HEAD` points at gets
      `HEAD` among its branches when its entry has no id yet. */
  function WithHead(repo: Repo, asctime: int -> string, table: map<string, Endpoint>): map<string, Endpoint>
    requires Listable(repo)
  {
    var head := HeadId(repo);
    var e := if head in table then table[head] else Blank;
    if e.id == "" then table[head := WithCommit(e, head, repo.commits[head], asctime).(branches := e.branches + ["HEAD"])]
    else table
  }

  /** The `HEAD` step completes every entry. */
  lemma HeadStep(repo: Repo, asctime: int -> string, table: map<string, Endpoint>, order: seq<string>)
    requires Listable(repo)
    requires AfterBranches(repo, asctime, repo.branches, table, order)
    ensures Seen(order, HeadId(repo)) == EntryIds(repo)
    ensures KeysAre(WithHead(repo, asctime, table), EntryIds(repo))
    ensures forall k | k in WithHead(repo, asctime, table) :: WithHead(repo, asctime, table)[k] == EntryFor(repo, asctime, k)
  {
    var head := HeadId(repo);
    var refs := RefIds(repo);
    assert head in table <==> head in refs;
    FirstSeenSnoc(refs, head);
    if head !in table {
      NoTagsAt(repo, repo.tags, head);
      NoBranchesAt(repo.branches, head);
    }
    HeadKeys(repo, asctime, table, order);
    HeadEntries(repo, asctime, table);
  }

  /** The keys after the `HEAD` step are the ids in the final order. */
  lemma HeadKeys(repo: Repo, asctime: int -> string, table: map<string, Endpoint>, order: seq<string>)
    requires Listable(repo)
    requires KeysAre(table, order)
    requires forall k | k in table :: table[k].id == k
    ensures KeysAre(WithHead(repo, asctime, table), Seen(order, HeadId(repo)))
  {
    var head := HeadId(repo);
    if head in table {
      assert table[head].id == head;
    }
  }

  /** The entries after the `HEAD` step are the final ones. */
  lemma HeadEntries(repo: Repo, asctime: int -> string, table: map<string, Endpoint>)
    requires Listable(repo)
    requires BranchEntries(repo, asctime, repo.branches, table)
    requires HeadId(repo) in table <==> HeadId(repo) in RefIds(repo)
    requires HeadId(repo) !in table ==>
      TagsAt(repo, repo.tags, HeadId(repo)) == [] && BranchesAt(repo.branches, HeadId(repo)) == []
    ensures forall k | k in WithHead(repo, asctime, table) :: WithHead(repo, asctime, table)[k] == EntryFor(repo, asctime, k)
  {
    var head := HeadId(repo);
    var after := WithHead(repo, asctime, table);
    forall k | k in after
      ensures after[k] == EntryFor(repo, asctime, k)
    {
      if k != head {
        assert k in table && after[k] == table[k];
      } else if head in table {
        assert table[head].id == head;
        assert HeadListed(repo) <==> head == "";
      } else {
        assert HeadListed(repo);
      }
    }
  }

  /** The `HEAD` step: its commit gets an entry listing `HEAD` when no tag
      or branch gave it one. */
  method AddHead(repo: Repo, asctime: int -> string, table0: map<string, Endpoint>, order0: seq<string>)
    returns (table: map<string, Endpoint>, order: seq<string>)
    requires Listable(repo)
    requires AfterBranches(repo, asctime, repo.branches, table0, order0)
    ensures order == EntryIds(repo)
    ensures KeysAre(table, order)
    ensures forall k | k in table :: table[k] == EntryFor(repo, asctime, k)
  {
    table, order := table0, order0;
    HeadStep(repo, asctime, table, order);
    var head := ResolveCommit(repo, "HEAD").value;
    var e := if head in table then table[head] else Blank;
    if e.id == "" {
      table := table[head := WithCommit(e, head, repo.commits[head], asctime).(branches := e.branches + ["HEAD"])];
    }
    if head !in order {
      order := order + [head];
    }
  }

  /** `[_commits[key] for key in _commits.keys()]`. */
  method Values(repo: Repo, asctime: int -> string, table: map<string, Endpoint>, order: seq<string>)
    returns (list: seq<Endpoint>)
    requires Listable(repo)
    requires order == EntryIds(repo)
    requires KeysAre(table, order)
    requires forall k | k in table :: table[k] == EntryFor(repo, asctime, k)
    ensures list == Unsorted(repo, asctime)
  {
    ghost var u := Unsorted(repo, asctime);
    list := [];
    for i := 0 to |order|
      invariant list == u[..i]
    {
      assert order[i] in table;
      assert u[i] == table[order[i]];
      list := list + [table[order[i]]];
      PrefixSnoc(u, i);
    }
    assert u[..|order|] == u;
  }

  /** The answer `_repo_endpoints` gives for the repository at `repoPath`:
      a path that is not a repository, or a name in it that does not
      resolve, raises. */
  function EndpointsResult(store: Store, repoPath: string, asctime: int -> string): Result<(string, Json)> {
    match OpenRepo(store, repoPath)
    case Err(e) => Err(e)
    case Ok(repo) =>
      if Listable(repo) then Ok(EndpointsReply(repo, asctime))
      else Err(GenericException("reference does not resolve"))
  }

  /** `_repo_endpoints(repo_path)`: the table of entries is filled from the
      tags, then the branches, then `HEAD`, and its values are sorted. The
      dictionary's key order is taken to be insertion order. */
  method RepoEndpoints(store: Store, repoPath: string, asctime: int -> string)
    returns (r: Result<(string, Json)>)
    ensures match OpenRepo(store, repoPath)
      case Err(e) => r == Err(e)
      case Ok(repo) => if Listable(repo) then r == Ok(EndpointsReply(repo, asctime)) else r.Err?
    ensures r == EndpointsResult(store, repoPath, asctime)
  {
    var attempt := OpenRepo(store, repoPath);
    if attempt.Err? {
      return Err(attempt.error);
    }
    var repo := attempt.value;
    if !Listable(repo) {
      return Err(GenericException("reference does not resolve"));
    }
    var table, order := CollectTags(repo, asctime);
    NoBranchesYet(repo, asctime, table, order);
    table, order := CollectBranches(repo, asctime, table, order);
    table, order := AddHead(repo, asctime, table, order);
    var list := Values(repo, asctime, table, order);
    var sorted := SortByTime(list);
    assert sorted == Endpoints(repo, asctime);
    r := Ok(("repo", Obj(map[
      "endpoints" := Arr(seq(|sorted|, i requires 0 <= i < |sorted| => EndpointJson(sorted[i]))),
      "description" := Str(repo.description)])));
  }
}
