/** External data files: deciding what to download, use counts, and downloading. */
module ExtData {
  import opened Common
  import Sorting

  datatype LinkType = Static | Artifact | Unknown

  datatype LinkData = LinkData(kind: LinkType, staticURL: string, size: int, sha256sum: string, name: string, executable: bool)

  datatype Link = Link(data: LinkData, url: string)

  /** Link data says where the file is and how to verify it exactly once: a static link by a URL and a checksum, an
      artifact link by a name in the directory of build artifacts, which is then known. */
  predicate WellFormed(d: LinkData, artifactsURL: string) {
    d.kind != Unknown &&
    (d.kind == Static <==> d.staticURL != "") && (d.kind == Artifact <==> d.name != "") && (d.kind == Static <==> d.sha256sum != "") &&
    (d.kind == Artifact ==> d.size == 0 && artifactsURL != "")
  }

  /** newLink. */
  function NewLink(d: LinkData, artifactsURL: string): (r: Option<Link>)
    ensures r.Some? <==> WellFormed(d, artifactsURL)
    ensures r.Some? ==> r.value.data == d && r.value.url == (if d.name == "" then d.staticURL else artifactsURL + d.name)
  {
    match d.kind
    case Static =>
      if d.staticURL == "" || d.name != "" || d.sha256sum == "" then None else Some(Link(d, d.staticURL))
    case Artifact =>
      if d.staticURL != "" || d.name == "" || d.sha256sum != "" || d.size != 0 || artifactsURL == "" then None
      else Some(Link(d, artifactsURL + d.name))
    case Unknown => None
  }

  /** What the disk holds at some moment. */
  datatype Snapshot = Snapshot(files: map<string, string>, urlRecords: map<string, string>, errors: set<string>)

  /** What is below the data directory, by destination path: the data files themselves, and the link
      file, the URL record and the error record beside each of them.  A link file that does not decode is None. */
  class Disk {
    /** No operation on the disk or the network fails, other than opening what is not there. */
    const faultless: bool
    const sha256: string -> string
    const links: map<string, Option<LinkData>>
    var files: map<string, string>
    var urlRecords: map<string, string>
    var errors: set<string>

    constructor (faultless: bool, sha256: string -> string, links: map<string, Option<LinkData>>, files: map<string, string>, urlRecords: map<string, string>)
      ensures this.faultless == faultless && this.sha256 == sha256 && this.links == links && this.files == files && this.urlRecords == urlRecords && errors == {}
    {
      this.faultless, this.sha256, this.links, this.files, this.urlRecords, this.errors := faultless, sha256, links, files, urlRecords, {};
    }

    /** The link of a data file, if it has one that loads. */
    function LinkOf(artifactsURL: string, dest: string): (r: Option<Link>)
      ensures r.Some? <==> dest in links && links[dest].Some? && WellFormed(links[dest].value, artifactsURL)
      ensures r.Some? ==> r.value.data == links[dest].value
    {
      if dest in links && links[dest].Some? then NewLink(links[dest].value, artifactsURL) else None
    }

    /** The file passes the integrity check of its link. */
    predicate Verifies(link: Link, content: string) {
      link.data.kind == Artifact || (|content| == link.data.size && sha256(content) == link.data.sha256sum)
    }

    function Now(): Snapshot reads this { Snapshot(files, urlRecords, errors) }

    /** The file is what its link asks for, as far as the records tell. */
    predicate Fresh(s: Snapshot, link: Link, dest: string) {
      dest in s.files && Verifies(link, s.files[dest]) &&
      (link.data.kind == Artifact ==> dest in s.urlRecords && s.urlRecords[dest] == link.url)
    }
  }

  datatype Job = Job(link: Link, dests: seq<string>)

  /** A job collects, under the URL of its link, destinations whose own link is the same, each once. */
  ghost predicate JobsFit(disk: Disk, artifactsURL: string, jobs: map<string, Job>) {
    forall u :: u in jobs ==> JobFits(disk, artifactsURL, u, jobs[u])
  }

  ghost predicate JobFits(disk: Disk, artifactsURL: string, u: string, job: Job) {
    job.link.url == u &&
    (forall i :: 0 <= i < |job.dests| ==> disk.LinkOf(artifactsURL, job.dests[i]) == Some(job.link)) &&
    (forall i, j :: 0 <= i < j < |job.dests| ==> job.dests[i] != job.dests[j])
  }

  /** After scanning, a data file with a link that loads is fresh, or to be downloaded by the job for
      its link, or has an error record; a stale file always has an error record. */
  ghost predicate Settled(disk: Disk, artifactsURL: string, s: Snapshot, jobs: map<string, Job>, dest: string) {
    (dest in disk.links && disk.LinkOf(artifactsURL, dest).None? ==> dest in s.errors) &&
    (disk.LinkOf(artifactsURL, dest).Some? ==>
      var link := disk.LinkOf(artifactsURL, dest).value;
      dest in s.errors ||
      (link.url in jobs && jobs[link.url].link == link &&
       (disk.Fresh(s, link, dest) || (dest !in s.files && dest in jobs[link.url].dests))))
  }

  /** jobs1 extends jobs0 by, at most, the destination dest and a job for its link. */
  ghost predicate Extends(disk: Disk, artifactsURL: string, jobs0: map<string, Job>, jobs1: map<string, Job>, dest: string) {
    (forall u :: u in jobs0 ==> u in jobs1 && jobs1[u].link == jobs0[u].link && jobs0[u].dests <= jobs1[u].dests) &&
    (forall u :: u in jobs1 && u !in jobs0 ==> disk.LinkOf(artifactsURL, dest) == Some(jobs1[u].link)) &&
    (forall u, d :: u in jobs1 && d in jobs1[u].dests && d != dest ==> u in jobs0 && d in jobs0[u].dests)
  }

  ghost predicate SameFile(s0: Snapshot, s1: Snapshot, d: string) {
    (d in s1.files <==> d in s0.files) && (d in s1.files ==> s1.files[d] == s0.files[d])
  }

  /** Exactly what happens to a data file on a faultless disk, from s0 to s: a file whose link loads is kept exactly if
      it is fresh, has an error record exactly if its link differs from that of the job for its URL, and is to be
      downloaded exactly if it is neither. */
  ghost predicate Exact(disk: Disk, artifactsURL: string, s0: Snapshot, s: Snapshot, jobs: map<string, Job>, dest: string) {
    match disk.LinkOf(artifactsURL, dest)
    case None => SameFile(s0, s, dest) && (dest in s.errors <==> dest in disk.links)
    case Some(link) =>
      link.url in jobs && (dest in s.errors <==> jobs[link.url].link != link) &&
      (if disk.Fresh(s0, link, dest) then SameFile(s0, s, dest) else dest !in s.files) &&
      (dest in jobs[link.url].dests <==> dest !in s.errors && !disk.Fresh(s0, link, dest))
  }

  lemma ExtendsNothing(disk: Disk, artifactsURL: string, jobs: map<string, Job>, dest: string)
    ensures Extends(disk, artifactsURL, jobs, jobs, dest)
  {
  }

  ghost predicate InNoJob(jobs: map<string, Job>, d: string) { forall u :: u in jobs ==> d !in jobs[u].dests }

  /** verify: artifacts are not checked; other files by their size first, and then by their hash. */
  method Verify(disk: Disk, link: Link, content: string) returns (ok: bool)
    ensures ok ==> disk.Verifies(link, content)
    ensures disk.faultless && disk.Verifies(link, content) ==> ok
  {
    if link.data.kind == Artifact {
      return true;
    }
    var statFails := Fault(disk.faultless);
    if statFails || |content| != link.data.size {
      return false;
    }
    var readFails := Fault(disk.faultless);
    if readFails {
      return false;
    }
    return disk.sha256(content) == link.data.sha256sum;
  }

  /** What a fresh file means: downloading a static link again would give the very same file, unless two different
      contents of its size have its hash. */
  lemma FreshIsServed(disk: Disk, served: map<string, string>, s: Snapshot, link: Link, dest: string)
    requires link.data.kind == Static && disk.Fresh(s, link, dest)
    requires link.url in served && disk.Verifies(link, served[link.url])
    requires forall a, b :: |a| == |b| == link.data.size && disk.sha256(a) == disk.sha256(b) == link.data.sha256sum ==> a == b
    ensures s.files[dest] == served[link.url]
  {
  }

  /** What is exact stays exact when another file is scanned. */
  lemma ExactKept(disk: Disk, artifactsURL: string, s0: Snapshot, s1: Snapshot, s2: Snapshot,
                  jobs1: map<string, Job>, jobs2: map<string, Job>, dest: string, d: string)
    requires d != dest && Exact(disk, artifactsURL, s0, s1, jobs1, d) && Extends(disk, artifactsURL, jobs1, jobs2, dest)
    requires SameFile(s1, s2, d) && (d in s2.errors <==> d in s1.errors)
    ensures Exact(disk, artifactsURL, s0, s2, jobs2, d)
  {
  }

  /** Scanning a file for the first time, or again, makes it exact with respect to the state before any scan. */
  lemma ExactSince(disk: Disk, artifactsURL: string, s0: Snapshot, s1: Snapshot, s2: Snapshot,
                   jobs1: map<string, Job>, jobs2: map<string, Job>, dest: string)
    requires s1.urlRecords == s0.urlRecords && JobsFit(disk, artifactsURL, jobs2) && Extends(disk, artifactsURL, jobs1, jobs2, dest)
    requires (SameFile(s0, s1, dest) && InNoJob(jobs1, dest)) || Exact(disk, artifactsURL, s0, s1, jobs1, dest)
    requires ScannedExactly(disk, artifactsURL, s1, s2, jobs1, jobs2, dest)
    ensures Exact(disk, artifactsURL, s0, s2, jobs2, dest)
  {
  }

  /** A file without a link that loads gets an error record exactly if it has a link file. */
  lemma ScannedUnlinked(disk: Disk, artifactsURL: string, s1: Snapshot, s2: Snapshot, jobs: map<string, Job>, dest: string)
    requires disk.LinkOf(artifactsURL, dest).None? && s2.files == s1.files && dest !in s2.errors
    ensures dest !in disk.links ==> ScannedExactly(disk, artifactsURL, s1, s2, jobs, jobs, dest)
    ensures dest in disk.links ==> ScannedExactly(disk, artifactsURL, s1, s2.(errors := s2.errors + {dest}), jobs, jobs, dest)
  {
  }

  /** Old error records make no difference. */
  lemma ScannedDespiteErrors(disk: Disk, artifactsURL: string, s0: Snapshot, s1: Snapshot, s2: Snapshot,
                             jobs1: map<string, Job>, jobs2: map<string, Job>, dest: string)
    requires s0.files == s1.files && s0.urlRecords == s1.urlRecords && ScannedExactly(disk, artifactsURL, s1, s2, jobs1, jobs2, dest)
    ensures ScannedExactly(disk, artifactsURL, s0, s2, jobs1, jobs2, dest)
  {
  }

  ghost predicate ScannedExactly(disk: Disk, artifactsURL: string, s1: Snapshot, s2: Snapshot,
                                 jobs1: map<string, Job>, jobs2: map<string, Job>, dest: string)
  {
    match disk.LinkOf(artifactsURL, dest)
    case None => SameFile(s1, s2, dest) && (dest in s2.errors <==> dest in disk.links)
    case Some(link) =>
      link.url in jobs2 && (dest in s2.errors <==> jobs2[link.url].link != link) &&
      (if disk.Fresh(s1, link, dest) then SameFile(s1, s2, dest) else dest !in s2.files) &&
      (dest in jobs2[link.url].dests <==>
        dest !in s2.errors && (!disk.Fresh(s1, link, dest) || (link.url in jobs1 && dest in jobs1[link.url].dests)))
  }

  class Manager {
    const artifactsURL: string
    const disk: Disk
    /** Every path at which a data file may lie. */
    const all: seq<string>
    var inuse: map<string, int>
    /** The uses that are prepared and not released. */
    ghost var live: multiset<string>

    ghost predicate Valid() reads this {
      forall p :: Count(p) == live[p]
    }

    function Count(p: string): int reads this { if p in inuse then inuse[p] else 0 }

    constructor (artifactsURL: string, disk: Disk, all: seq<string>)
      ensures Valid() && this.artifactsURL == artifactsURL && this.disk == disk && this.all == all && live == multiset{}
    {
      this.artifactsURL, this.disk, this.all, inuse, live := artifactsURL, disk, all, map[], multiset{};
    }

    /** Purgeable: the files on disk that no live use needs. */
    method Purgeable() returns (res: seq<string>)
      requires Valid()
      ensures forall p :: p in res <==> p in all && p !in live && p in disk.files
    {
      res := [];
      for i := 0 to |all|
        invariant forall p :: p in res <==> p in all[..i] && p !in live && p in disk.files
      {
        assert Count(all[i]) == live[all[i]];
        if Count(all[i]) <= 0 && all[i] in disk.files {
          res := res + [all[i]];
        }
      }
      assert all[..|all|] == all;
    }

    method Use(dest: string)
      requires Valid()
      modifies this
      ensures Valid() && live == old(live) + multiset{dest}
    {
      inuse := inuse[dest := Count(dest) + 1];
      live := live + multiset{dest};
      assert forall p :: Count(p) == old(Count(p)) + (if p == dest then 1 else 0);
    }

    method Unuse(dest: string)
      requires Valid() && dest in live
      modifies this
      ensures Valid() && live == old(live) - multiset{dest}
    {
      assert Count(dest) == live[dest];
      inuse := inuse[dest := Count(dest) - 1];
      live := live - multiset{dest};
      assert forall p :: Count(p) == old(Count(p)) - (if p == dest then 1 else 0);
    }

    /** The release function that PrepareDownloads returns. */
    method Release(uses: seq<string>)
      requires Valid() && multiset(uses) <= live
      modifies this
      ensures Valid() && live == old(live) - multiset(uses)
    {
      hide *;
      ghost var goal := live - multiset(uses);
      assert uses[0..] == uses;
      for i := 0 to |uses|
        invariant Valid() && live == goal + multiset(uses[i..])
      {
        assert uses[i..] == [uses[i]] + uses[i + 1..];
        Unuse(uses[i]);
      }
    }

    /** The decision whether a file that exists must be downloaded again: an artifact, if it is not recorded to
        come from the URL of the link, any other file, if it does not verify.  What cannot be read counts as not there. */
    method ShouldDownload(link: Link, dest: string) returns (needed: bool)
      requires dest in disk.files
      ensures !needed ==> disk.Fresh(disk.Now(), link, dest)
      ensures disk.faultless && disk.Fresh(disk.Now(), link, dest) ==> !needed
    {
      if link.data.kind == Artifact {
        var unreadable := Fault(disk.faultless);
        if unreadable || dest !in disk.urlRecords {
          return true;
        }
        return link.url != disk.urlRecords[dest];
      }
      var ok := Verify(disk, link, disk.files[dest]);
      return !ok;
    }

    /** Removes a stale file, so that it is never used. */
    method RemoveStale(link: Link, dest: string) returns (failed: bool, needed: bool)
      modifies disk`files
      ensures !failed ==>
        if needed then disk.files == old(disk.files) - {dest}
        else disk.files == old(disk.files) && disk.Fresh(disk.Now(), link, dest)
      ensures failed ==> disk.files == old(disk.files)
      ensures disk.faultless ==> !failed && (needed <==> !disk.Fresh(old(disk.Now()), link, dest))
    {
      failed := Fault(disk.faultless);
      needed := true;
      if failed || dest !in disk.files {
        return;
      }
      needed := ShouldDownload(link, dest);
      if needed {
        failed := Fault(disk.faultless);
        if failed {
          return;
        }
        disk.files := disk.files - {dest};
      }
    }

    /** Files a destination that is to be downloaded, or only its link, under the URL of the link. */
    method AddToJob(link: Link, dest: string, needed: bool, jobs0: map<string, Job>) returns (conflict: bool, jobs: map<string, Job>)
      requires JobsFit(disk, artifactsURL, jobs0) && disk.LinkOf(artifactsURL, dest) == Some(link)
      ensures JobsFit(disk, artifactsURL, jobs) && Extends(disk, artifactsURL, jobs0, jobs, dest)
      ensures link.url in jobs && (conflict <==> jobs[link.url].link != link) && (conflict ==> jobs == jobs0)
      ensures dest in jobs[link.url].dests <==> !conflict && (needed || (link.url in jobs0 && dest in jobs0[link.url].dests))
    {
      if link.url in jobs0 && jobs0[link.url].link != link {
        assert JobFits(disk, artifactsURL, link.url, jobs0[link.url]);
        return true, jobs0;
      }
      var job := if link.url in jobs0 then jobs0[link.url] else Job(link, []);
      var dup := false;
      for i := 0 to |job.dests|
        invariant dup <==> dest in job.dests[..i]
      {
        dup := dup || job.dests[i] == dest;
      }
      assert job.dests[..|job.dests|] == job.dests;
      if needed && !dup {
        job := job.(dests := job.dests + [dest]);
      }
      assert JobFits(disk, artifactsURL, link.url, job);
      return false, jobs0[link.url := job];
    }

    /** One round of the scan: the data file dest of some entity. */
    method ScanFile(dest: string, jobs0: map<string, Job>) returns (jobs: map<string, Job>, used: bool)
      requires Valid() && JobsFit(disk, artifactsURL, jobs0)
      modifies this, disk
      ensures Valid() && JobsFit(disk, artifactsURL, jobs) && Extends(disk, artifactsURL, jobs0, jobs, dest)
      ensures Settled(disk, artifactsURL, disk.Now(), jobs, dest)
      ensures live == old(live) + (if used then multiset{dest} else multiset{})
      ensures if used then disk.LinkOf(artifactsURL, dest).Some? else disk.LinkOf(artifactsURL, dest).Some? ==> dest in disk.errors
      ensures disk.urlRecords == old(disk.urlRecords)
      ensures disk.errors - {dest} == old(disk.errors) - {dest} && disk.files - {dest} == old(disk.files) - {dest}
      ensures disk.faultless ==> ScannedExactly(disk, artifactsURL, old(disk.Now()), disk.Now(), jobs0, jobs, dest)
      ensures disk.faultless ==> (used <==> disk.LinkOf(artifactsURL, dest).Some?)
      ensures dest in disk.errors ==> jobs == jobs0
    {
      hide JobsFit, Extends, ScannedExactly;
      ExtendsNothing(disk, artifactsURL, jobs0, dest);
      jobs, used := jobs0, false;
      disk.errors := disk.errors - {dest};
      if disk.LinkOf(artifactsURL, dest).None? { ScannedUnlinked(disk, artifactsURL, old(disk.Now()), disk.Now(), jobs0, dest); }
      if dest !in disk.links {
        return;
      }
      var unreadable := Fault(disk.faultless);
      if unreadable || disk.LinkOf(artifactsURL, dest).None? {
        disk.errors := disk.errors + {dest};
        return;
      }
      ghost var s1 := disk.Now();
      Use(dest);
      used := true;
      jobs := ScanLinked(disk.LinkOf(artifactsURL, dest).value, dest, jobs0);
      if disk.faultless { ScannedDespiteErrors(disk, artifactsURL, old(disk.Now()), s1, disk.Now(), jobs0, jobs, dest); }
    }

    /** The rest of the round, for a file whose link has been loaded. */
    method ScanLinked(link: Link, dest: string, jobs0: map<string, Job>) returns (jobs: map<string, Job>)
      requires JobsFit(disk, artifactsURL, jobs0) && disk.LinkOf(artifactsURL, dest) == Some(link) && dest !in disk.errors
      modifies disk`files, disk`errors
      ensures JobsFit(disk, artifactsURL, jobs) && Extends(disk, artifactsURL, jobs0, jobs, dest)
      ensures Settled(disk, artifactsURL, disk.Now(), jobs, dest)
      ensures disk.errors - {dest} == old(disk.errors) && disk.files - {dest} == old(disk.files) - {dest}
      ensures dest in disk.errors ==> jobs == jobs0
      ensures disk.faultless ==> ScannedExactly(disk, artifactsURL, old(disk.Now()), disk.Now(), jobs0, jobs, dest)
    {
      hide JobsFit, Extends;
      ExtendsNothing(disk, artifactsURL, jobs0, dest);
      jobs := jobs0;
      var failed, needed := RemoveStale(link, dest);
      if failed {
        disk.errors := disk.errors + {dest};
        return;
      }
      var conflict;
      conflict, jobs := AddToJob(link, dest, needed, jobs0);
      if conflict {
        disk.errors := disk.errors + {dest};
      }
    }

    /** Scanning dest leaves what was settled for other files. */
    lemma SettledKept(s0: Snapshot, s1: Snapshot, dest: string, jobs0: map<string, Job>, jobs: map<string, Job>, d: string)
      requires d != dest && Settled(disk, artifactsURL, s0, jobs0, d) && Extends(disk, artifactsURL, jobs0, jobs, dest)
      requires s1.urlRecords == s0.urlRecords && s1.errors - {dest} == s0.errors - {dest} && s1.files - {dest} == s0.files - {dest}
      ensures Settled(disk, artifactsURL, s1, jobs, d)
    {
      assert d in s1.errors - {dest} <==> d in s0.errors - {dest};
      assert d in s1.files - {dest} <==> d in s0.files - {dest};
      assert d in s1.files ==> (s1.files - {dest})[d] == (s0.files - {dest})[d];
    }

    /** ScanFile, with what it means for files scanned before. */
    method ScanNext(dest: string, jobs0: map<string, Job>, ghost s0: Snapshot, ghost seen: set<string>)
      returns (jobs: map<string, Job>, used: bool)
      requires Valid() && JobsFit(disk, artifactsURL, jobs0)
      modifies this, disk
      ensures Valid() && JobsFit(disk, artifactsURL, jobs)
      ensures live == old(live) + (if used then multiset{dest} else multiset{})
      ensures if used then disk.LinkOf(artifactsURL, dest).Some? else disk.LinkOf(artifactsURL, dest).Some? ==> dest in disk.errors
      ensures disk.errors - {dest} == old(disk.errors) - {dest}
      ensures forall d :: d == dest || Settled(disk, artifactsURL, old(disk.Now()), jobs0, d) ==> Settled(disk, artifactsURL, disk.Now(), jobs, d)
      ensures disk.faultless ==> (used <==> disk.LinkOf(artifactsURL, dest).Some?)
      ensures disk.faultless && AllExact(disk, artifactsURL, s0, old(disk.Now()), jobs0, seen) ==>
        AllExact(disk, artifactsURL, s0, disk.Now(), jobs, seen + {dest})
    {
      hide Settled, Extends, JobsFit, ScannedExactly, AllExact;
      jobs, used := ScanFile(dest, jobs0);
      forall d | d != dest && Settled(disk, artifactsURL, old(disk.Now()), jobs0, d) ensures Settled(disk, artifactsURL, disk.Now(), jobs, d) {
        SettledKept(old(disk.Now()), disk.Now(), dest, jobs0, jobs, d);
      }
      if disk.faultless && AllExact(disk, artifactsURL, s0, old(disk.Now()), jobs0, seen) {
        AllExactNext(disk, artifactsURL, s0, old(disk.Now()), disk.Now(), jobs0, jobs, seen, dest);
      }
    }

    /** The scan of all data files of the entities. */
    method Scan(dests: seq<string>) returns (jobs: map<string, Job>, uses: seq<string>, ghost failed: set<string>)
      requires Valid()
      modifies this, disk
      ensures Valid() && JobsFit(disk, artifactsURL, jobs)
      ensures live == old(live) + multiset(uses)
      ensures forall i :: 0 <= i < |dests| ==> Settled(disk, artifactsURL, disk.Now(), jobs, dests[i])
      ensures UsesCover(disk, artifactsURL, dests, uses, failed) && failed <= disk.errors
      ensures disk.faultless ==> UsesExactly(disk, artifactsURL, dests, uses)
      ensures disk.faultless ==> AllExact(disk, artifactsURL, old(disk.Now()), disk.Now(), jobs, set d | d in dests)
    {
      hide Settled, JobsFit, AllExact, UsesExactly, UsesCover, FailedNext, Valid;
      jobs, uses, failed := map[], [], {};
      ghost var s0 := disk.Now();
      NothingScanned(disk, artifactsURL, s0);
      ghost var seen := {};
      for i := 0 to |dests|
        invariant Valid() && JobsFit(disk, artifactsURL, jobs)
        invariant live == old(live) + multiset(uses)
        invariant forall d :: d in seen ==> Settled(disk, artifactsURL, disk.Now(), jobs, d)
        invariant UsesCover(disk, artifactsURL, dests[..i], uses, failed) && failed <= disk.errors
        invariant disk.faultless ==> UsesExactly(disk, artifactsURL, dests[..i], uses)
        invariant seen == set d | d in dests[..i]
        invariant disk.faultless ==> AllExact(disk, artifactsURL, s0, disk.Now(), jobs, seen)
      {
        var dest := dests[i];
        var used;
        ghost var errors0 := disk.errors;
        jobs, used := ScanNext(dest, jobs, s0, seen);
        seen := seen + {dest};
        assert dests[..i + 1] == dests[..i] + [dest];
        if disk.faultless { UsesNext(disk, artifactsURL, dests[..i], uses, dest); }
        CoverNext(disk, artifactsURL, dests[..i], uses, failed, dest, used);
        FailedHaveErrors(disk, artifactsURL, dests[..i], uses, failed, dest, used, errors0, disk.errors);
        failed := FailedNext(disk, artifactsURL, uses, failed, dest, used);
        if used {
          uses := uses + [dest];
        }
      }
      assert dests[..|dests|] == dests;
    }

    /** PrepareDownloads for the data files at dests; uses is what the returned release function gives back, and
        failed are the files whose links would load but could not be read. */
    method PrepareDownloads(dests: seq<string>) returns (jobs: seq<Job>, uses: seq<string>, ghost failed: set<string>)
      requires Valid()
      modifies this, disk
      ensures Valid() && live == old(live) + multiset(uses)
      ensures JobList(disk, artifactsURL, jobs)
      ensures forall i :: 0 <= i < |dests| ==> Prepared(disk, artifactsURL, disk.Now(), jobs, dests[i])
      ensures forall i, j :: 0 <= i < |dests| && 0 <= j < |dests| && Conflicting(disk, artifactsURL, dests[i], dests[j]) ==>
        dests[i] in disk.errors || dests[j] in disk.errors
      ensures UsesCover(disk, artifactsURL, dests, uses, failed) && failed <= disk.errors
      ensures disk.faultless ==> UsesExactly(disk, artifactsURL, dests, uses)
      ensures disk.faultless ==> forall i :: 0 <= i < |dests| ==>
        PreparedExactly(disk, artifactsURL, old(disk.Now()), disk.Now(), jobs, dests, dests[i])
      ensures disk.faultless ==> OnlyThese(old(disk.Now()), disk.Now(), jobs, dests)
      ensures disk.faultless && (forall i :: 0 <= i < |dests| ==> UpToDate(disk, artifactsURL, old(disk.Now()), dests[i])) ==>
        jobs == [] && disk.files == old(disk.files)
    {
      hide OnlyThese, UpToDate, Settled, Prepared, PreparedExactly, AllExact, JobsFit, UsesExactly, UsesCover, JobList,
           Conflicting;
      var urlToJob;
      urlToJob, uses, failed := Scan(dests);
      jobs := ListJobs(disk, artifactsURL, urlToJob);
      forall i | 0 <= i < |dests| ensures Prepared(disk, artifactsURL, disk.Now(), jobs, dests[i]) {
        SettledPrepared(disk, artifactsURL, disk.Now(), urlToJob, jobs, dests[i]);
      }
      forall i, j | 0 <= i < |dests| && 0 <= j < |dests| && Conflicting(disk, artifactsURL, dests[i], dests[j])
        ensures dests[i] in disk.errors || dests[j] in disk.errors
      {
        OneLinkPerURL(disk, artifactsURL, disk.Now(), urlToJob, dests[i], dests[j]);
      }
      if disk.faultless {
        forall i | 0 <= i < |dests| ensures PreparedExactly(disk, artifactsURL, old(disk.Now()), disk.Now(), jobs, dests, dests[i]) {
          ExactPrepared(disk, artifactsURL, old(disk.Now()), disk.Now(), urlToJob, jobs, dests, dests[i]);
        }
        ExactElsewhere(disk, artifactsURL, old(disk.Now()), disk.Now(), urlToJob, jobs, dests);
        if forall i :: 0 <= i < |dests| ==> UpToDate(disk, artifactsURL, old(disk.Now()), dests[i]) {
          NothingToDownload(disk, artifactsURL, old(disk.Now()), disk.Now(), jobs, dests);
        }
      }
    }
  }

  /** On a faultless disk, the files scanned so far are exact and all others untouched. */
  ghost predicate AllExact(disk: Disk, artifactsURL: string, s0: Snapshot, s: Snapshot, jobs: map<string, Job>, seen: set<string>) {
    s.urlRecords == s0.urlRecords &&
    (forall d :: if d in seen then Exact(disk, artifactsURL, s0, s, jobs, d) else SameFile(s0, s, d) && InNoJob(jobs, d)) &&
    (forall u :: u in jobs ==> exists d :: d in seen && disk.LinkOf(artifactsURL, d) == Some(jobs[u].link))
  }

  lemma NothingScanned(disk: Disk, artifactsURL: string, s: Snapshot)
    ensures AllExact(disk, artifactsURL, s, s, map[], {}) && UsesExactly(disk, artifactsURL, [], []) && UsesCover(disk, artifactsURL, [], [], {}) && JobsFit(disk, artifactsURL, map[])
  {
  }

  lemma AllExactNext(disk: Disk, artifactsURL: string, s0: Snapshot, s1: Snapshot, s2: Snapshot,
                     jobs1: map<string, Job>, jobs2: map<string, Job>, seen: set<string>, dest: string)
    requires AllExact(disk, artifactsURL, s0, s1, jobs1, seen)
    requires JobsFit(disk, artifactsURL, jobs2) && Extends(disk, artifactsURL, jobs1, jobs2, dest)
    requires ScannedExactly(disk, artifactsURL, s1, s2, jobs1, jobs2, dest)
    requires s2.urlRecords == s1.urlRecords && s2.errors - {dest} == s1.errors - {dest} && s2.files - {dest} == s1.files - {dest}
    ensures AllExact(disk, artifactsURL, s0, s2, jobs2, seen + {dest})
  {
    hide Exact, ScannedExactly, JobsFit;
    forall d | d != dest ensures SameFile(s1, s2, d) && (d in s2.errors <==> d in s1.errors) {
      assert d in s2.errors - {dest} <==> d in s1.errors - {dest};
      assert d in s2.files - {dest} <==> d in s1.files - {dest};
      assert d in s2.files ==> (s2.files - {dest})[d] == (s1.files - {dest})[d];
    }
    forall d | d in seen + {dest} ensures Exact(disk, artifactsURL, s0, s2, jobs2, d) {
      if d == dest {
        ExactSince(disk, artifactsURL, s0, s1, s2, jobs1, jobs2, dest);
      } else {
        ExactKept(disk, artifactsURL, s0, s1, s2, jobs1, jobs2, dest, d);
      }
    }
    forall d | d !in seen + {dest} ensures SameFile(s0, s2, d) && InNoJob(jobs2, d) {
      assert SameFile(s0, s1, d) && InNoJob(jobs1, d) && d != dest && SameFile(s1, s2, d);
    }
    forall u | u in jobs2 ensures exists d :: d in seen + {dest} && disk.LinkOf(artifactsURL, d) == Some(jobs2[u].link) {
      if u in jobs1 {
        var d :| d in seen && disk.LinkOf(artifactsURL, d) == Some(jobs1[u].link);
        assert d in seen + {dest};
      } else {
        assert dest in seen + {dest};
      }
    }
  }

  /** Every file whose link loads is used as often as it is listed. */
  ghost predicate UsesExactly(disk: Disk, artifactsURL: string, dests: seq<string>, uses: seq<string>) {
    forall d :: multiset(uses)[d] == if disk.LinkOf(artifactsURL, d).Some? then multiset(dests)[d] else 0
  }

  /** The files in use are those whose links were loaded: all whose links load, except the failed ones, and on a
      faultless disk all of them. */
  ghost predicate UsesCover(disk: Disk, artifactsURL: string, dests: seq<string>, uses: seq<string>, failed: set<string>) {
    (forall d :: d in dests && disk.LinkOf(artifactsURL, d).Some? ==> (d in uses <==> d !in failed)) &&
    (forall d :: d in uses || d in failed ==> d in dests && disk.LinkOf(artifactsURL, d).Some?) &&
    (disk.faultless ==> failed == {})
  }

  ghost function FailedNext(disk: Disk, artifactsURL: string, uses: seq<string>, failed: set<string>, dest: string, used: bool): set<string> {
    if used then failed - {dest} else if disk.LinkOf(artifactsURL, dest).Some? && dest !in uses then failed + {dest} else failed
  }

  lemma CoverNext(disk: Disk, artifactsURL: string, dests: seq<string>, uses: seq<string>, failed: set<string>, dest: string, used: bool)
    requires UsesCover(disk, artifactsURL, dests, uses, failed)
    requires used ==> disk.LinkOf(artifactsURL, dest).Some?
    requires disk.faultless ==> (used <==> disk.LinkOf(artifactsURL, dest).Some?)
    ensures UsesCover(disk, artifactsURL, dests + [dest], if used then uses + [dest] else uses,
      FailedNext(disk, artifactsURL, uses, failed, dest, used))
  {
  }

  /** A file whose link could not be read has an error record. */
  lemma FailedHaveErrors(disk: Disk, artifactsURL: string, dests: seq<string>, uses: seq<string>, failed: set<string>, dest: string, used: bool,
                         errors0: set<string>, errors1: set<string>)
    requires UsesCover(disk, artifactsURL, dests, uses, failed) && failed <= errors0 && errors1 - {dest} == errors0 - {dest}
    requires !used && disk.LinkOf(artifactsURL, dest).Some? ==> dest in errors1
    ensures FailedNext(disk, artifactsURL, uses, failed, dest, used) <= errors1
  {
    forall d | d in failed && d != dest ensures d in errors1 { assert d in errors0 - {dest}; }
  }

  lemma UsesNext(disk: Disk, artifactsURL: string, dests: seq<string>, uses: seq<string>, dest: string)
    requires UsesExactly(disk, artifactsURL, dests, uses)
    ensures UsesExactly(disk, artifactsURL, dests + [dest], if disk.LinkOf(artifactsURL, dest).Some? then uses + [dest] else uses)
  {
  }

  /** The jobs that have destinations, in the order of their URLs. */
  ghost predicate JobList(disk: Disk, artifactsURL: string, jobs: seq<Job>) {
    (forall i :: 0 <= i < |jobs| ==> jobs[i].dests != [] && JobFits(disk, artifactsURL, jobs[i].link.url, jobs[i])) &&
    (forall i, j :: 0 <= i < j < |jobs| ==> jobs[i].link.url != jobs[j].link.url && Sorting.Le(jobs[i].link.url, jobs[j].link.url))
  }

  /** What PrepareDownloads promises about a data file: with a link that loads, it has an error record,
      or it is fresh, or it is gone and waits in a job that carries its link. */
  ghost predicate Prepared(disk: Disk, artifactsURL: string, s: Snapshot, jobs: seq<Job>, dest: string) {
    (dest in disk.links && disk.LinkOf(artifactsURL, dest).None? ==> dest in s.errors) &&
    (disk.LinkOf(artifactsURL, dest).Some? ==>
      var link := disk.LinkOf(artifactsURL, dest).value;
      dest in s.errors || disk.Fresh(s, link, dest) ||
      (dest !in s.files && exists i :: 0 <= i < |jobs| && jobs[i].link == link && dest in jobs[i].dests))
  }

  /** The links of the two files give one URL, but differ. */
  ghost predicate Conflicting(disk: Disk, artifactsURL: string, d: string, e: string) {
    var a, b := disk.LinkOf(artifactsURL, d), disk.LinkOf(artifactsURL, e);
    a.Some? && b.Some? && a.value.url == b.value.url && a != b
  }

  lemma OneLinkPerURL(disk: Disk, artifactsURL: string, s: Snapshot, jobs: map<string, Job>, d: string, e: string)
    requires Settled(disk, artifactsURL, s, jobs, d) && Settled(disk, artifactsURL, s, jobs, e) && Conflicting(disk, artifactsURL, d, e)
    ensures d in s.errors || e in s.errors
  {
  }

  /** What PrepareDownloads does to a data file on a faultless disk, from s0 to s: a file whose link loads is kept
      exactly if it is fresh, gets an error record only if the link of another file conflicts with its own, and waits
      in a job exactly if it was not fresh and has no error record.  A file whose link does not load is kept and
      has an error record; a file without a link is left alone. */
  ghost predicate PreparedExactly(disk: Disk, artifactsURL: string, s0: Snapshot, s: Snapshot, jobs: seq<Job>, dests: seq<string>, dest: string) {
    match disk.LinkOf(artifactsURL, dest)
    case None => SameFile(s0, s, dest) && (dest in s.errors <==> dest in disk.links)
    case Some(link) =>
      (if disk.Fresh(s0, link, dest) then SameFile(s0, s, dest) else dest !in s.files) &&
      (dest in s.errors ==> exists j :: 0 <= j < |dests| && Conflicting(disk, artifactsURL, dest, dests[j])) &&
      ((exists i :: 0 <= i < |jobs| && jobs[i].link == link && dest in jobs[i].dests) <==> dest !in s.errors && !disk.Fresh(s0, link, dest))
  }

  lemma ExactPrepared(disk: Disk, artifactsURL: string, s0: Snapshot, s: Snapshot, urlToJob: map<string, Job>, jobs: seq<Job>,
                      dests: seq<string>, dest: string)
    requires AllExact(disk, artifactsURL, s0, s, urlToJob, set d | d in dests) && dest in dests && JobsFit(disk, artifactsURL, urlToJob)
    requires forall u :: u in urlToJob && urlToJob[u].dests != [] ==> urlToJob[u] in jobs
    requires forall i :: 0 <= i < |jobs| ==> jobs[i].link.url in urlToJob && urlToJob[jobs[i].link.url] == jobs[i]
    ensures PreparedExactly(disk, artifactsURL, s0, s, jobs, dests, dest)
  {
    assert Exact(disk, artifactsURL, s0, s, urlToJob, dest);
    if disk.LinkOf(artifactsURL, dest).Some? {
      var link := disk.LinkOf(artifactsURL, dest).value;
      var job := urlToJob[link.url];
      assert JobFits(disk, artifactsURL, link.url, job);
      if dest in s.errors {
        var d :| d in (set d | d in dests) && disk.LinkOf(artifactsURL, d) == Some(job.link);
        var j :| 0 <= j < |dests| && dests[j] == d;
        assert Conflicting(disk, artifactsURL, dest, dests[j]);
      } else if !disk.Fresh(s0, link, dest) {
        var i :| 0 <= i < |jobs| && jobs[i] == job;
      }
    }
  }

  /** Other data files are left alone, and so are the records. */
  ghost predicate OnlyThese(s0: Snapshot, s: Snapshot, jobs: seq<Job>, dests: seq<string>) {
    s.urlRecords == s0.urlRecords && forall d :: d !in dests ==> SameFile(s0, s, d) && InNoJobOf(jobs, d)
  }

  lemma ExactElsewhere(disk: Disk, artifactsURL: string, s0: Snapshot, s: Snapshot, urlToJob: map<string, Job>, jobs: seq<Job>, dests: seq<string>)
    requires AllExact(disk, artifactsURL, s0, s, urlToJob, set d | d in dests)
    requires forall i :: 0 <= i < |jobs| ==> jobs[i].link.url in urlToJob && urlToJob[jobs[i].link.url] == jobs[i]
    ensures OnlyThese(s0, s, jobs, dests)
  {
    hide Exact, SameFile;
    forall d | d !in dests ensures SameFile(s0, s, d) && InNoJobOf(jobs, d) {
      assert d !in set d | d in dests;
      assert InNoJob(urlToJob, d);
    }
  }

  lemma SameFiles(s0: Snapshot, s: Snapshot)
    requires forall d :: SameFile(s0, s, d)
    ensures s.files == s0.files
  {
    forall d ensures (d in s.files <==> d in s0.files) && (d in s.files ==> s.files[d] == s0.files[d]) { assert SameFile(s0, s, d); }
    assert s.files.Keys == s0.files.Keys;
  }

  /** A data file whose link loads is fresh. */
  ghost predicate UpToDate(disk: Disk, artifactsURL: string, s: Snapshot, dest: string) {
    disk.LinkOf(artifactsURL, dest).Some? ==> disk.Fresh(s, disk.LinkOf(artifactsURL, dest).value, dest)
  }

  lemma StaleInJob(disk: Disk, artifactsURL: string, s0: Snapshot, s: Snapshot, jobs: seq<Job>, dests: seq<string>)
    requires JobList(disk, artifactsURL, jobs) && OnlyThese(s0, s, jobs, dests) && jobs != []
    requires forall i :: 0 <= i < |dests| ==> PreparedExactly(disk, artifactsURL, s0, s, jobs, dests, dests[i])
    ensures exists i :: 0 <= i < |dests| && !UpToDate(disk, artifactsURL, s0, dests[i])
  {
    hide Disk.Fresh, Conflicting;
    var d := jobs[0].dests[0];
    assert JobFits(disk, artifactsURL, jobs[0].link.url, jobs[0]);
    assert d in jobs[0].dests && d in dests;
    var i :| 0 <= i < |dests| && dests[i] == d;
    assert PreparedExactly(disk, artifactsURL, s0, s, jobs, dests, dests[i]);
  }

  /** If all files are up to date, nothing is to be downloaded and no file is changed. */
  lemma NothingToDownload(disk: Disk, artifactsURL: string, s0: Snapshot, s: Snapshot, jobs: seq<Job>, dests: seq<string>)
    requires JobList(disk, artifactsURL, jobs) && OnlyThese(s0, s, jobs, dests)
    requires forall i :: 0 <= i < |dests| ==> PreparedExactly(disk, artifactsURL, s0, s, jobs, dests, dests[i])
    requires forall i :: 0 <= i < |dests| ==> UpToDate(disk, artifactsURL, s0, dests[i])
    ensures jobs == [] && s.files == s0.files
  {
    hide Disk.Fresh, Conflicting;
    forall d ensures SameFile(s0, s, d) {
      if d in dests {
        var i :| 0 <= i < |dests| && dests[i] == d;
        assert PreparedExactly(disk, artifactsURL, s0, s, jobs, dests, dests[i]);
      }
    }
    SameFiles(s0, s);
    if jobs != [] {
      StaleInJob(disk, artifactsURL, s0, s, jobs, dests);
      assert false;
    }
  }

  /** A destination waits in one job only. */
  lemma OneJob(disk: Disk, artifactsURL: string, jobs: seq<Job>, i: nat, j: nat, dest: string)
    requires JobList(disk, artifactsURL, jobs) && i < |jobs| && j < |jobs|
    requires dest in jobs[i].dests && dest in jobs[j].dests
    ensures i == j
  {
    assert jobs[i].link == jobs[j].link;
  }

  method ListJobs(disk: Disk, artifactsURL: string, urlToJob: map<string, Job>) returns (jobs: seq<Job>)
    requires JobsFit(disk, artifactsURL, urlToJob)
    ensures JobList(disk, artifactsURL, jobs)
    ensures forall u :: u in urlToJob && urlToJob[u].dests != [] ==> urlToJob[u] in jobs
    ensures forall i :: 0 <= i < |jobs| ==> jobs[i].link.url in urlToJob && urlToJob[jobs[i].link.url] == jobs[i]
  {
    hide JobFits, Sorting.Sort, Sorting.Le;
    var keys := Sorting.Keys(urlToJob);
    var urls := Sorting.Sort(keys);
    Sorting.SortSorts(keys);
    Sorting.SortDistinct(keys);
    jobs := [];
    for i := 0 to |urls|
      invariant JobList(disk, artifactsURL, jobs)
      invariant forall j :: 0 <= j < |jobs| ==> jobs[j].link.url in urls[..i]
      invariant forall j :: 0 <= j < i && urlToJob[urls[j]].dests != [] ==> urlToJob[urls[j]] in jobs
      invariant forall j :: 0 <= j < |jobs| ==> jobs[j].link.url in urlToJob && urlToJob[jobs[j].link.url] == jobs[j]
    {
      assert urls[i] in urls;
      var job := urlToJob[urls[i]];
      assert JobFits(disk, artifactsURL, urls[i], job);
      FitUrl(disk, artifactsURL, urls[i], job);
      if job.dests != [] {
        jobs := jobs + [job];
      }
    }
  }

  lemma FitUrl(disk: Disk, artifactsURL: string, u: string, job: Job)
    requires JobFits(disk, artifactsURL, u, job)
    ensures job.link.url == u
  {
  }

  lemma SettledPrepared(disk: Disk, artifactsURL: string, s: Snapshot, urlToJob: map<string, Job>, jobs: seq<Job>, dest: string)
    requires Settled(disk, artifactsURL, s, urlToJob, dest)
    requires forall u :: u in urlToJob && urlToJob[u].dests != [] ==> urlToJob[u] in jobs
    ensures Prepared(disk, artifactsURL, s, jobs, dest)
  {
    var link := disk.LinkOf(artifactsURL, dest);
    if link.Some? && dest !in s.errors && !disk.Fresh(s, link.value, dest) {
      var i :| 0 <= i < |jobs| && jobs[i] == urlToJob[link.value.url];
    }
  }

  // ----- Downloading -----

  /** The file is what the link asks for: it verifies, and an artifact is what the server holds at the
      URL of the link, or was when its URL was recorded. */
  ghost predicate Usable(disk: Disk, served: map<string, string>, s: Snapshot, link: Link, dest: string) {
    disk.Fresh(s, link, dest) ||
    (dest in s.files && link.url in served && s.files[dest] == served[link.url] && disk.Verifies(link, s.files[dest]))
  }

  /** The server holds what the link of the job asks for. */
  ghost predicate Served(disk: Disk, served: map<string, string>, job: Job) {
    job.link.url in served && disk.Verifies(job.link, served[job.link.url])
  }

  /** runDownload: fetch to a temporary file, verify, then link it at every destination. */
  method RunDownload(disk: Disk, served: map<string, string>, job: Job) returns (ok: bool)
    modifies disk
    ensures disk.urlRecords == old(disk.urlRecords) && disk.errors == old(disk.errors)
    ensures forall d :: d !in job.dests ==> (d in disk.files <==> d in old(disk.files)) && (d in disk.files ==> disk.files[d] == old(disk.files[d]))
    ensures ok ==> Served(disk, served, job)
    ensures ok ==> forall i :: 0 <= i < |job.dests| ==> job.dests[i] in disk.files && disk.files[job.dests[i]] == served[job.link.url]
    ensures disk.faultless && Served(disk, served, job) ==> ok
  {
    var fails := Fault(disk.faultless);
    if fails || job.link.url !in served {
      return false;
    }
    var content := served[job.link.url];
    var ok' := Verify(disk, job.link, content);
    if !ok' {
      return false;
    }
    for i := 0 to |job.dests|
      invariant disk.urlRecords == old(disk.urlRecords) && disk.errors == old(disk.errors)
      invariant forall d :: d !in job.dests ==> (d in disk.files <==> d in old(disk.files)) && (d in disk.files ==> disk.files[d] == old(disk.files[d]))
      invariant forall j :: 0 <= j < i ==> job.dests[j] in disk.files && disk.files[job.dests[j]] == content
    {
      var removeFails := Fault(disk.faultless);
      var linkFails := Fault(disk.faultless);
      if removeFails {
        return false;
      }
      if linkFails {
        disk.files := disk.files - {job.dests[i]};
        return false;
      }
      disk.files := disk.files[job.dests[i] := content];
    }
    return true;
  }

  ghost predicate SameAt(s0: Snapshot, s1: Snapshot, d: string) {
    (d in s1.files <==> d in s0.files) && (d in s1.files ==> s1.files[d] == s0.files[d]) &&
    (d in s1.urlRecords <==> d in s0.urlRecords) && (d in s1.urlRecords ==> s1.urlRecords[d] == s0.urlRecords[d]) &&
    (d in s1.errors <==> d in s0.errors)
  }

  /** The file needs no more work: it has an error record or is what its link asks for. */
  ghost predicate Done(disk: Disk, artifactsURL: string, served: map<string, string>, s: Snapshot, dest: string) {
    (dest in disk.links && disk.LinkOf(artifactsURL, dest).None? ==> dest in s.errors) &&
    (disk.LinkOf(artifactsURL, dest).Some? ==>
      dest in s.errors || Usable(disk, served, s, disk.LinkOf(artifactsURL, dest).value, dest))
  }

  lemma DoneKept(disk: Disk, artifactsURL: string, served: map<string, string>, s0: Snapshot, s1: Snapshot, dest: string)
    requires Done(disk, artifactsURL, served, s0, dest) && SameAt(s0, s1, dest)
    ensures Done(disk, artifactsURL, served, s1, dest)
  {
  }

  ghost predicate SameRecord(s0: Snapshot, s: Snapshot, d: string) {
    (d in s.urlRecords <==> d in s0.urlRecords) && (d in s.urlRecords ==> s.urlRecords[d] == s0.urlRecords[d])
  }

  /** A record is written only for an artifact, and says where the file beside it came from. */
  ghost predicate RecordTrue(served: map<string, string>, s0: Snapshot, s: Snapshot, link: Link, d: string) {
    SameRecord(s0, s, d) ||
    (link.data.kind == Artifact && d in s.urlRecords && s.urlRecords[d] == link.url && link.url in served && d in s.files && s.files[d] == served[link.url])
  }

  /** How far a job is: not taken by a worker yet, downloaded by one, or its result handled. */
  datatype Phase = Waiting | Fetched(ok: bool) | Handled

  /** What that means for its files, since the downloads began at s0. */
  ghost predicate InPhase(disk: Disk, artifactsURL: string, served: map<string, string>, s0: Snapshot, s: Snapshot, job: Job, phase: Phase) {
    match phase
    case Waiting => forall d :: d in job.dests ==> SameAt(s0, s, d)
    case Fetched(ok) =>
      (forall d :: d in job.dests ==> SameRecord(s0, s, d)) &&
      (ok ==> Served(disk, served, job) && forall d :: d in job.dests ==> d in s.files && s.files[d] == served[job.link.url]) &&
      (disk.faultless && Served(disk, served, job) ==> ok)
    case Handled =>
      (forall d :: d in job.dests ==> Done(disk, artifactsURL, served, s, d) && RecordTrue(served, s0, s, job.link, d)) &&
      (disk.faultless && Served(disk, served, job) ==> forall d :: d in job.dests ==> disk.Fresh(s, job.link, d))
  }

  /** A job is not affected by what happens to files of other jobs. */
  lemma PhaseKept(disk: Disk, artifactsURL: string, served: map<string, string>, s0: Snapshot, s1: Snapshot, s2: Snapshot, job: Job, phase: Phase)
    requires InPhase(disk, artifactsURL, served, s0, s1, job, phase) && forall d :: d in job.dests ==> SameAt(s1, s2, d)
    ensures InPhase(disk, artifactsURL, served, s0, s2, job, phase)
  {
    if phase == Handled {
      forall d | d in job.dests ensures Done(disk, artifactsURL, served, s2, d) { DoneKept(disk, artifactsURL, served, s1, s2, d); }
    }
  }

  /** A worker takes the job, or the result of a worker is handled: a job that failed leaves error records; one
      that succeeded records the URL of an artifact, best effort. */
  method AdvanceJob(disk: Disk, artifactsURL: string, served: map<string, string>, ghost s0: Snapshot, job: Job, phase: Phase) returns (next: Phase)
    requires JobFits(disk, artifactsURL, job.link.url, job) && phase != Handled
    requires InPhase(disk, artifactsURL, served, s0, disk.Now(), job, phase)
    modifies disk
    ensures next == if phase == Waiting then Fetched(next == Fetched(true)) else Handled
    ensures InPhase(disk, artifactsURL, served, s0, disk.Now(), job, next)
    ensures forall d :: d !in job.dests ==> SameAt(old(disk.Now()), disk.Now(), d)
    ensures old(disk.errors) <= disk.errors
    ensures disk.faultless && Served(disk, served, job) ==> disk.errors == old(disk.errors)
  {
    hide Done, JobFits, InPhase, Served, RecordTrue;
    ghost var s1 := disk.Now();
    if phase == Waiting {
      var ok := RunDownload(disk, served, job);
      JobFetched(disk, artifactsURL, served, s0, s1, disk.Now(), job, ok);
      return Fetched(ok);
    }
    var recorded: set<string> := {};
    if !phase.ok {
      NotServed(disk, artifactsURL, served, s0, s1, job);
      disk.errors := disk.errors + set d | d in job.dests;
      JobFailed(disk, artifactsURL, served, s0, s1, disk.Now(), job);
    } else {
      if job.link.data.kind == Artifact {
        recorded := *;
        var fails := Fault(disk.faultless);
        recorded := set d | d in job.dests && (!fails || d in recorded);
        disk.urlRecords := disk.urlRecords + map d | d in recorded :: job.link.url;
      }
      JobRecorded(disk, artifactsURL, served, s0, s1, disk.Now(), job, recorded);
    }
    return Handled;
  }

  lemma JobFetched(disk: Disk, artifactsURL: string, served: map<string, string>, s0: Snapshot, s1: Snapshot, s2: Snapshot, job: Job, ok: bool)
    requires InPhase(disk, artifactsURL, served, s0, s1, job, Waiting) && s2.urlRecords == s1.urlRecords
    requires ok ==> Served(disk, served, job)
    requires ok ==> forall i :: 0 <= i < |job.dests| ==> job.dests[i] in s2.files && s2.files[job.dests[i]] == served[job.link.url]
    requires disk.faultless && Served(disk, served, job) ==> ok
    ensures InPhase(disk, artifactsURL, served, s0, s2, job, Fetched(ok))
  {
  }

  lemma NotServed(disk: Disk, artifactsURL: string, served: map<string, string>, s0: Snapshot, s: Snapshot, job: Job)
    requires InPhase(disk, artifactsURL, served, s0, s, job, Fetched(false))
    ensures !(disk.faultless && Served(disk, served, job))
  {
  }

  lemma JobFailed(disk: Disk, artifactsURL: string, served: map<string, string>, s0: Snapshot, s1: Snapshot, s2: Snapshot, job: Job)
    requires InPhase(disk, artifactsURL, served, s0, s1, job, Fetched(false)) && JobFits(disk, artifactsURL, job.link.url, job)
    requires s2 == s1.(errors := s1.errors + set d | d in job.dests)
    ensures InPhase(disk, artifactsURL, served, s0, s2, job, Handled)
  {
  }

  lemma JobRecorded(disk: Disk, artifactsURL: string, served: map<string, string>, s0: Snapshot, s1: Snapshot, s2: Snapshot, job: Job, recorded: set<string>)
    requires InPhase(disk, artifactsURL, served, s0, s1, job, Fetched(true)) && JobFits(disk, artifactsURL, job.link.url, job)
    requires s2 == s1.(urlRecords := s1.urlRecords + map d | d in recorded :: job.link.url)
    requires job.link.data.kind != Artifact ==> recorded == {}
    requires job.link.data.kind == Artifact && disk.faultless ==> forall d :: d in job.dests ==> d in recorded
    ensures InPhase(disk, artifactsURL, served, s0, s2, job, Handled)
  {
    hide InPhase;
    FetchedOk(disk, artifactsURL, served, s0, s1, job);
    forall d | d in job.dests
      ensures Done(disk, artifactsURL, served, s2, d) && RecordTrue(served, s0, s2, job.link, d)
      ensures disk.faultless ==> disk.Fresh(s2, job.link, d)
    {
      var i :| 0 <= i < |job.dests| && job.dests[i] == d;
      assert disk.LinkOf(artifactsURL, job.dests[i]) == Some(job.link);
    }
    IsHandled(disk, artifactsURL, served, s0, s2, job);
  }

  lemma FetchedOk(disk: Disk, artifactsURL: string, served: map<string, string>, s0: Snapshot, s: Snapshot, job: Job)
    requires InPhase(disk, artifactsURL, served, s0, s, job, Fetched(true))
    ensures Served(disk, served, job)
    ensures forall d :: d in job.dests ==> SameRecord(s0, s, d) && d in s.files && s.files[d] == served[job.link.url]
  {
  }

  lemma IsHandled(disk: Disk, artifactsURL: string, served: map<string, string>, s0: Snapshot, s: Snapshot, job: Job)
    requires forall d :: d in job.dests ==> Done(disk, artifactsURL, served, s, d) && RecordTrue(served, s0, s, job.link, d)
    requires disk.faultless ==> forall d :: d in job.dests ==> disk.Fresh(s, job.link, d)
    ensures InPhase(disk, artifactsURL, served, s0, s, job, Handled)
  {
  }

  /** What is left to do. */
  ghost function Left(phases: seq<Phase>): nat {
    if phases == [] then 0
    else Left(phases[1..]) + (match phases[0] case Waiting => 2 case Fetched(_) => 1 case Handled => 0)
  }

  lemma {:induction false} LeftLess(phases: seq<Phase>, i: nat, next: Phase)
    requires i < |phases| && phases[i] != Handled && (if phases[i] == Waiting then next.Fetched? else next == Handled)
    ensures Left(phases[i := next]) < Left(phases)
  {
    if i > 0 {
      LeftLess(phases[1..], i - 1, next);
      assert phases[i := next][1..] == phases[1..][i - 1 := next];
    } else {
      assert phases[i := next][1..] == phases[1..];
    }
  }

  ghost predicate AllInPhase(disk: Disk, artifactsURL: string, served: map<string, string>, s0: Snapshot, s: Snapshot, jobs: seq<Job>, phases: seq<Phase>) {
    |phases| == |jobs| && forall j :: 0 <= j < |jobs| ==> InPhase(disk, artifactsURL, served, s0, s, jobs[j], phases[j])
  }

  lemma AllAdvanced(disk: Disk, artifactsURL: string, served: map<string, string>, s0: Snapshot, s1: Snapshot, s2: Snapshot,
                    jobs: seq<Job>, phases: seq<Phase>, i: nat, next: Phase)
    requires JobList(disk, artifactsURL, jobs) && AllInPhase(disk, artifactsURL, served, s0, s1, jobs, phases) && i < |jobs|
    requires InPhase(disk, artifactsURL, served, s0, s2, jobs[i], next)
    requires forall d :: d !in jobs[i].dests ==> SameAt(s1, s2, d)
    ensures AllInPhase(disk, artifactsURL, served, s0, s2, jobs, phases[i := next])
  {
    hide SameAt, InPhase, JobList;
    forall j | 0 <= j < |jobs| ensures InPhase(disk, artifactsURL, served, s0, s2, jobs[j], phases[i := next][j]) {
      if j != i {
        forall d | d in jobs[j].dests ensures SameAt(s1, s2, d) {
          if d in jobs[i].dests { OneJob(disk, artifactsURL, jobs, i, j, d); }
        }
        PhaseKept(disk, artifactsURL, served, s0, s1, s2, jobs[j], phases[j]);
      }
    }
  }

  /** Any job that is not through. */
  method PickJob(phases: seq<Phase>) returns (i: nat)
    ensures i <= |phases| && (i < |phases| ==> phases[i] != Handled)
    ensures i == |phases| ==> forall j :: 0 <= j < |phases| ==> phases[j] == Handled
  {
    var n: int := *;
    if 0 <= n < |phases| && phases[n] != Handled {
      return n;
    }
    i := 0;
    while i < |phases| && phases[i] == Handled
      invariant i <= |phases| && forall j :: 0 <= j < i ==> phases[j] == Handled
    {
      i := i + 1;
    }
  }

  ghost predicate InNoJobOf(jobs: seq<Job>, d: string) { forall j :: 0 <= j < |jobs| ==> d !in jobs[j].dests }

  /** RunDownloads: workers take the jobs and their results are handled in any order.  On a faultless disk
      every file that is served is fresh afterwards, records included, so that it will not be downloaded again. */
  method RunDownloads(disk: Disk, artifactsURL: string, served: map<string, string>, jobs: seq<Job>)
    requires JobList(disk, artifactsURL, jobs)
    modifies disk
    ensures old(disk.errors) <= disk.errors
    ensures disk.faultless && (forall i :: 0 <= i < |jobs| ==> Served(disk, served, jobs[i])) ==> disk.errors == old(disk.errors)
    ensures forall i, k :: 0 <= i < |jobs| && 0 <= k < |jobs[i].dests| ==> Done(disk, artifactsURL, served, disk.Now(), jobs[i].dests[k])
    ensures forall d :: Done(disk, artifactsURL, served, old(disk.Now()), d) ==> Done(disk, artifactsURL, served, disk.Now(), d)
    ensures disk.faultless ==> forall i, d :: 0 <= i < |jobs| && d in jobs[i].dests && Served(disk, served, jobs[i]) ==>
      disk.Fresh(disk.Now(), jobs[i].link, d)
    ensures forall d :: InNoJobOf(jobs, d) ==> SameAt(old(disk.Now()), disk.Now(), d)
    ensures forall i, d :: 0 <= i < |jobs| && d in jobs[i].dests ==> RecordTrue(served, old(disk.Now()), disk.Now(), jobs[i].link, d)
  {
    hide Done, SameAt, JobFits, Served, InPhase, AllInPhase, Left, Disk.Fresh, InNoJobOf, RecordTrue;
    ghost var s0 := disk.Now();
    var phases := seq(|jobs|, _ => Waiting);
    AllWaiting(disk, artifactsURL, served, s0, jobs, phases);
    var i: nat := PickJob(phases);
    while i < |jobs|
      invariant |phases| == |jobs| && i <= |jobs| && (i < |jobs| ==> phases[i] != Handled)
      invariant i == |jobs| ==> forall j :: 0 <= j < |jobs| ==> phases[j] == Handled
      invariant AllInPhase(disk, artifactsURL, served, s0, disk.Now(), jobs, phases)
      invariant forall d :: InNoJobOf(jobs, d) ==> SameAt(s0, disk.Now(), d)
      invariant s0.errors <= disk.errors
      invariant disk.faultless && (forall i :: 0 <= i < |jobs| ==> Served(disk, served, jobs[i])) ==> disk.errors == s0.errors
      decreases Left(phases)
    {
      ghost var s1 := disk.Now();
      OneInPhase(disk, artifactsURL, served, s0, s1, jobs, phases, i);
      var next := AdvanceJob(disk, artifactsURL, served, s0, jobs[i], phases[i]);
      AllAdvanced(disk, artifactsURL, served, s0, s1, disk.Now(), jobs, phases, i, next);
      LeftLess(phases, i, next);
      forall d | InNoJobOf(jobs, d) ensures SameAt(s0, disk.Now(), d) {
        NotInJob(jobs, i, d);
        SameTransitive(s0, s1, disk.Now(), d);
      }
      phases := phases[i := next];
      i := PickJob(phases);
    }
    AllHandled(disk, artifactsURL, served, s0, disk.Now(), jobs, phases);
  }

  lemma AllWaiting(disk: Disk, artifactsURL: string, served: map<string, string>, s: Snapshot, jobs: seq<Job>, phases: seq<Phase>)
    requires |phases| == |jobs| && forall i :: 0 <= i < |jobs| ==> phases[i] == Waiting
    ensures AllInPhase(disk, artifactsURL, served, s, s, jobs, phases) && forall d :: SameAt(s, s, d)
  {
  }

  lemma OneInPhase(disk: Disk, artifactsURL: string, served: map<string, string>, s0: Snapshot, s: Snapshot, jobs: seq<Job>, phases: seq<Phase>, i: nat)
    requires AllInPhase(disk, artifactsURL, served, s0, s, jobs, phases) && i < |jobs|
    ensures InPhase(disk, artifactsURL, served, s0, s, jobs[i], phases[i])
  {
  }

  lemma NotInJob(jobs: seq<Job>, i: nat, d: string)
    requires InNoJobOf(jobs, d) && i < |jobs|
    ensures d !in jobs[i].dests
  {
  }

  lemma SameTransitive(s0: Snapshot, s1: Snapshot, s2: Snapshot, d: string)
    requires SameAt(s0, s1, d) && SameAt(s1, s2, d)
    ensures SameAt(s0, s2, d)
  {
  }

  lemma AllHandled(disk: Disk, artifactsURL: string, served: map<string, string>, s0: Snapshot, s: Snapshot, jobs: seq<Job>, phases: seq<Phase>)
    requires AllInPhase(disk, artifactsURL, served, s0, s, jobs, phases) && forall i :: 0 <= i < |jobs| ==> phases[i] == Handled
    requires forall d :: InNoJobOf(jobs, d) ==> SameAt(s0, s, d)
    ensures forall i, k :: 0 <= i < |jobs| && 0 <= k < |jobs[i].dests| ==> Done(disk, artifactsURL, served, s, jobs[i].dests[k])
    ensures forall d :: Done(disk, artifactsURL, served, s0, d) ==> Done(disk, artifactsURL, served, s, d)
    ensures disk.faultless ==> forall i, d :: 0 <= i < |jobs| && d in jobs[i].dests && Served(disk, served, jobs[i]) ==>
      disk.Fresh(s, jobs[i].link, d)
    ensures forall i, d :: 0 <= i < |jobs| && d in jobs[i].dests ==> RecordTrue(served, s0, s, jobs[i].link, d)
  {
    hide Done, SameAt, Disk.Fresh, Served, RecordTrue;
    forall i, d | 0 <= i < |jobs| && d in jobs[i].dests
      ensures RecordTrue(served, s0, s, jobs[i].link, d)
      ensures Done(disk, artifactsURL, served, s, d)
      ensures disk.faultless && Served(disk, served, jobs[i]) ==> disk.Fresh(s, jobs[i].link, d)
    {
      assert InPhase(disk, artifactsURL, served, s0, s, jobs[i], phases[i]);
    }
    forall d | Done(disk, artifactsURL, served, s0, d) ensures Done(disk, artifactsURL, served, s, d) {
      if InNoJobOf(jobs, d) { DoneKept(disk, artifactsURL, served, s0, s, d); }
    }
  }

  lemma PreparedDone(disk: Disk, artifactsURL: string, served: map<string, string>, s0: Snapshot, s1: Snapshot, jobs: seq<Job>, dest: string)
    requires Prepared(disk, artifactsURL, s0, jobs, dest)
    requires forall i, k :: 0 <= i < |jobs| && 0 <= k < |jobs[i].dests| ==> Done(disk, artifactsURL, served, s1, jobs[i].dests[k])
    requires Done(disk, artifactsURL, served, s0, dest) ==> Done(disk, artifactsURL, served, s1, dest)
    ensures Done(disk, artifactsURL, served, s1, dest)
  {
    if !Done(disk, artifactsURL, served, s0, dest) {
      var link := disk.LinkOf(artifactsURL, dest).value;
      var i :| 0 <= i < |jobs| && jobs[i].link == link && dest in jobs[i].dests;
      var k :| 0 <= k < |jobs[i].dests| && jobs[i].dests[k] == dest;
    }
  }

  /** The server holds what every link asks for. */
  ghost predicate ServesAll(disk: Disk, artifactsURL: string, served: map<string, string>) {
    forall d :: disk.LinkOf(artifactsURL, d).Some? ==>
      var link := disk.LinkOf(artifactsURL, d).value; link.url in served && disk.Verifies(link, served[link.url])
  }

  lemma JobServed(disk: Disk, artifactsURL: string, served: map<string, string>, jobs: seq<Job>, i: nat)
    requires ServesAll(disk, artifactsURL, served) && JobList(disk, artifactsURL, jobs) && i < |jobs|
    ensures Served(disk, served, jobs[i])
  {
    assert disk.LinkOf(artifactsURL, jobs[i].dests[0]) == Some(jobs[i].link);
  }

  /** The files that cannot be had: their link does not load or conflicts with that of another file. */
  ghost predicate Unobtainable(disk: Disk, artifactsURL: string, dests: seq<string>, dest: string) {
    dest in disk.links &&
    (disk.LinkOf(artifactsURL, dest).None? || exists j :: 0 <= j < |dests| && Conflicting(disk, artifactsURL, dest, dests[j]))
  }

  lemma ErrorsUnobtainable(disk: Disk, artifactsURL: string, s0: Snapshot, s: Snapshot, jobs: seq<Job>, dests: seq<string>, dest: string)
    requires PreparedExactly(disk, artifactsURL, s0, s, jobs, dests, dest) && dest in s.errors
    ensures Unobtainable(disk, artifactsURL, dests, dest)
  {
  }

  lemma NothingChanged(s0: Snapshot, s1: Snapshot)
    requires forall d :: InNoJobOf([], d) ==> SameAt(s0, s1, d)
    ensures s1.files == s0.files
  {
    forall d ensures SameFile(s0, s1, d) { assert InNoJobOf([], d); }
    SameFiles(s0, s1);
  }

  lemma NowUpToDate(disk: Disk, artifactsURL: string, served: map<string, string>, s0: Snapshot, s1: Snapshot, s2: Snapshot,
                    jobs: seq<Job>, dests: seq<string>, dest: string)
    requires PreparedExactly(disk, artifactsURL, s0, s1, jobs, dests, dest) && !Unobtainable(disk, artifactsURL, dests, dest)
    requires JobList(disk, artifactsURL, jobs) && OnlyThese(s0, s1, jobs, dests)
    requires forall i, d :: 0 <= i < |jobs| && d in jobs[i].dests ==> disk.Fresh(s2, jobs[i].link, d)
    requires InNoJobOf(jobs, dest) ==> SameAt(s1, s2, dest)
    ensures UpToDate(disk, artifactsURL, s2, dest)
  {
    hide Conflicting;
    if disk.LinkOf(artifactsURL, dest).Some? {
      var link := disk.LinkOf(artifactsURL, dest).value;
      if j :| 0 <= j < |jobs| && dest in jobs[j].dests {
        assert JobFits(disk, artifactsURL, jobs[j].link.url, jobs[j]);
      }
    }
  }

  /** Data files by entity: the destination paths of its data files. */
  type DataFiles = map<string, seq<string>>

  /** An entity that has started and not finished, what it uses, and which of its links could not be read. */
  datatype Holder = Holder(entity: string, uses: seq<string>, failed: set<string>)

  ghost function EntitiesOf(held: seq<Holder>): seq<string> {
    seq(|held|, k requires 0 <= k < |held| => held[k].entity)
  }

  /** The planner's downloader.  held is the stack of entities that have started and not finished. */
  class Downloader {
    const lazy: bool
    const m: Manager
    const served: map<string, string>
    const dataFiles: DataFiles
    /** The uses that others hold. */
    ghost const others: multiset<string>
    ghost var held: seq<Holder>

    ghost predicate Valid() reads this, m {
      m.Valid() && m.live == others + Total(held) && forall k :: 0 <= k < |held| ==> HoldsData(held[k])
    }

    /** In lazy mode an entity holds all its data files whose links were loaded. */
    ghost predicate HoldsData(h: Holder) {
      lazy && h.entity in dataFiles ==> UsesCover(m.disk, m.artifactsURL, dataFiles[h.entity], h.uses, h.failed)
    }

    /** d is an external data file of the entity. */
    ghost predicate HasData(entity: string, d: string) {
      entity in dataFiles && d in dataFiles[entity] && m.disk.LinkOf(m.artifactsURL, d).Some?
    }

    /** The list contains no external data file of the entities that have started and not finished, save, on a disk
        that fails, one whose link could not be read when its entity started. */
    ghost predicate SparesData(entities: seq<string>, purgeable: seq<string>) reads this {
      EntitiesOf(held) == entities &&
      forall k, d :: 0 <= k < |entities| && HasData(entities[k], d) && (m.disk.faultless || d !in held[k].failed) ==> d !in purgeable
    }

    constructor (lazy: bool, m: Manager, served: map<string, string>, dataFiles: DataFiles)
      requires m.Valid()
      ensures Valid() && this.lazy == lazy && this.m == m && this.served == served && this.dataFiles == dataFiles && held == [] && others == m.live
    {
      this.lazy, this.m, this.served, this.dataFiles, others, held := lazy, m, served, dataFiles, m.live, [];
    }

    /** download. */
    method Download(dests: seq<string>) returns (uses: seq<string>, ghost failed: set<string>)
      requires m.Valid()
      modifies m, m.disk
      ensures m.Valid() && m.live == old(m.live) + multiset(uses)
      ensures forall i :: 0 <= i < |dests| ==> Done(m.disk, m.artifactsURL, served, m.disk.Now(), dests[i])
      ensures UsesCover(m.disk, m.artifactsURL, dests, uses, failed) && failed <= m.disk.errors
      ensures m.disk.faultless ==> UsesExactly(m.disk, m.artifactsURL, dests, uses)
      ensures m.disk.faultless && ServesAll(m.disk, m.artifactsURL, served) ==>
        forall i :: 0 <= i < |dests| && dests[i] in m.disk.errors ==> Unobtainable(m.disk, m.artifactsURL, dests, dests[i])
      ensures m.disk.faultless && ServesAll(m.disk, m.artifactsURL, served) ==>
        forall i :: 0 <= i < |dests| && !Unobtainable(m.disk, m.artifactsURL, dests, dests[i]) ==>
          UpToDate(m.disk, m.artifactsURL, m.disk.Now(), dests[i])
      ensures m.disk.faultless && (forall i :: 0 <= i < |dests| ==> UpToDate(m.disk, m.artifactsURL, old(m.disk.Now()), dests[i])) ==>
        m.disk.files == old(m.disk.files)
    {
      hide OnlyThese, UpToDate, Disk.Fresh, InNoJobOf, SameAt, Done, Prepared, JobList, PreparedExactly, Conflicting,
           UsesExactly, UsesCover, Unobtainable, ServesAll, Served;
      var jobs;
      jobs, uses, failed := m.PrepareDownloads(dests);
      ghost var s0 := m.disk.Now();
      RunDownloads(m.disk, m.artifactsURL, served, jobs);
      if jobs == [] { NothingChanged(s0, m.disk.Now()); }
      forall i | 0 <= i < |dests| ensures Done(m.disk, m.artifactsURL, served, m.disk.Now(), dests[i]) {
        PreparedDone(m.disk, m.artifactsURL, served, s0, m.disk.Now(), jobs, dests[i]);
      }
      if m.disk.faultless && ServesAll(m.disk, m.artifactsURL, served) {
        forall i | 0 <= i < |jobs| ensures Served(m.disk, served, jobs[i]) { JobServed(m.disk, m.artifactsURL, served, jobs, i); }
        forall i | 0 <= i < |dests| && dests[i] in s0.errors ensures Unobtainable(m.disk, m.artifactsURL, dests, dests[i]) {
          ErrorsUnobtainable(m.disk, m.artifactsURL, old(m.disk.Now()), s0, jobs, dests, dests[i]);
        }
        forall i | 0 <= i < |dests| && !Unobtainable(m.disk, m.artifactsURL, dests, dests[i])
          ensures UpToDate(m.disk, m.artifactsURL, m.disk.Now(), dests[i])
        {
          NowUpToDate(m.disk, m.artifactsURL, served, old(m.disk.Now()), s0, m.disk.Now(), jobs, dests, dests[i]);
        }
      }
    }

    /** BeforeEntity: in lazy mode afterwards every data file of the entity is usable or has an error record, and
        every one whose link was loaded is in use. */
    method BeforeEntity(entity: string) returns (uses: seq<string>, ghost failed: set<string>)
      requires Valid()
      modifies this, m, m.disk
      ensures Valid() && held == old(held) + [Holder(entity, uses, failed)] && failed <= m.disk.errors
      ensures lazy && entity in dataFiles ==> forall i :: 0 <= i < |dataFiles[entity]| ==>
        Done(m.disk, m.artifactsURL, served, m.disk.Now(), dataFiles[entity][i])
      ensures !lazy || entity !in dataFiles ==> uses == [] && failed == {}
    {
      hide Done, UsesCover, UsesExactly, Total, Manager.Valid;
      uses, failed := [], {};
      if lazy && entity in dataFiles {
        uses, failed := Download(dataFiles[entity]);
      }
      TotalNext(held, Holder(entity, uses, failed));
      held := held + [Holder(entity, uses, failed)];
    }

    /** The release function of the entity that started last. */
    method AfterEntity(uses: seq<string>)
      requires Valid() && held != [] && held[|held| - 1].uses == uses
      modifies this, m
      ensures Valid() && held == old(held)[..|old(held)| - 1]
    {
      hide UsesCover, Manager.Valid;
      m.Release(uses);
      held := held[..|held| - 1];
    }

    /** What may be purged while a test runs contains no external data file of an entity that has not finished. */
    method Purgeable() returns (res: seq<string>)
      requires Valid()
      ensures lazy ==> SparesData(EntitiesOf(held), res)
      ensures forall p :: p in res <==> p in m.all && p in m.disk.files && p !in others && p !in Total(held)
    {
      res := m.Purgeable();
      if lazy {
        forall k, d | 0 <= k < |held| && HasData(EntitiesOf(held)[k], d) && (m.disk.faultless || d !in held[k].failed)
          ensures d !in res
        {
          assert HoldsData(held[k]);
          HeldIsLive(held, k, d);
        }
      }
    }
  }

  ghost function Total(held: seq<Holder>): multiset<string> {
    if held == [] then multiset{} else Total(held[..|held| - 1]) + multiset(held[|held| - 1].uses)
  }

  lemma TotalNext(held: seq<Holder>, h: Holder)
    ensures Total(held + [h]) == Total(held) + multiset(h.uses)
  {
    assert (held + [h])[..|held|] == held;
  }

  lemma {:induction false} HeldIsLive(held: seq<Holder>, k: nat, p: string)
    requires k < |held| && p in held[k].uses
    ensures p in Total(held)
  {
    if k < |held| - 1 {
      HeldIsLive(held[..|held| - 1], k, p);
    } else {
      assert p in multiset(held[k].uses);
    }
  }
}
