/**
  A bucket of files in which a name may be stored as it is or compressed. Whatever is on disk, it
  behaves as a map from names to contents.
*/
module Bucket {
  import opened Common

  /** The directory by file name, and what the decompressor makes of a file. */
  datatype Disk = Disk(files: map<string, string>, unzip: string -> string)

  /** A name that is not itself the stored form of another. */
  ghost predicate Plain(name: string) {
    forall other: string :: name != other + ".zst" && name != other + ".gz"
  }

  /** What a reader of the name gets. */
  function Lookup(d: Disk, name: string): Option<string> {
    if name + ".zst" in d.files then Some(d.unzip(d.files[name + ".zst"]))
    else if name in d.files then Some(d.files[name])
    else None
  }

  function Written(d: Disk, name: string, data: string): Disk {
    d.(files := (d.files - {name + ".zst"})[name := data])
  }

  function Removed(d: Disk, name: string): Disk {
    d.(files := d.files - {name + ".zst", name + ".gz", name})
  }

  lemma SuffixInjective(a: string, b: string, suffix: string)
    ensures a + suffix == b + suffix ==> a == b
  {
    if a + suffix == b + suffix {
      assert |a| == |b|;
      assert a == (a + suffix)[..|a|] && b == (b + suffix)[..|b|];
    }
  }

  lemma NotItsOwnForm(a: string)
    ensures a != a + ".zst" && a != a + ".gz"
  {
    assert |a + ".zst"| == |a| + 4 && |a + ".gz"| == |a| + 3;
  }

  /** Writing sets one name, whichever form it had, and no other. */
  lemma WriteIsMapUpdate(d: Disk, name: string, data: string, other: string)
    requires Plain(name) && Plain(other)
    ensures Lookup(Written(d, name, data), other) == if other == name then Some(data) else Lookup(d, other)
  {
    NotItsOwnForm(name);
    SuffixInjective(name, other, ".zst");
    assert name != other + ".zst" && other != name + ".zst";
  }

  lemma RemoveIsMapRemove(d: Disk, name: string, other: string)
    requires Plain(name) && Plain(other)
    ensures Lookup(Removed(d, name), other) == if other == name then None else Lookup(d, other)
  {
    NotItsOwnForm(name);
    SuffixInjective(name, other, ".zst");
    assert other + ".zst" != name + ".gz" by {
      assert (other + ".zst")[|other + ".zst"| - 1] == 't' && (name + ".gz")[|name + ".gz"| - 1] == 'z';
    }
    assert name != other + ".zst" && other != name + ".zst" && other != name + ".gz";
  }

  class LocalBucket {
    var disk: Disk

    /** Over a directory that may hold files in any form. */
    constructor (disk: Disk)
      ensures this.disk == disk
    {
      this.disk := disk;
    }

    method WriteFile(name: string, data: string)
      modifies this
      ensures disk == Written(old(disk), name, data)
      ensures disk.unzip == old(disk.unzip) && disk.files == (old(disk.files) - {name + ".zst"})[name := data]
    {
      disk := disk.(files := disk.files - {name + ".zst"});
      disk := disk.(files := disk.files[name := data]);
    }

    method Reader(name: string) returns (r: Option<string>)
      ensures r == Lookup(disk, name)
      ensures name + ".zst" in disk.files ==> r == Some(disk.unzip(disk.files[name + ".zst"]))
      ensures name + ".zst" !in disk.files ==> r == if name in disk.files then Some(disk.files[name]) else None
    {
      if name + ".zst" in disk.files {
        return Some(disk.unzip(disk.files[name + ".zst"]));
      }
      if name in disk.files {
        return Some(disk.files[name]);
      }
      r := None;
    }

    method RemoveFile(name: string)
      modifies this
      ensures disk == Removed(old(disk), name)
      ensures disk.unzip == old(disk.unzip)
      ensures disk.files == old(disk.files) - {name, name + ".gz", name + ".zst"}
    {
      disk := disk.(files := disk.files - {name + ".zst"});
      disk := disk.(files := disk.files - {name + ".gz"});
      disk := disk.(files := disk.files - {name});
    }

    method FileList() returns (names: set<string>)
      ensures names == disk.files.Keys
    {
      names := disk.files.Keys;
    }
  }
}

/**
  Rendered statements are kept in a bucket under their attachment's id. A cached rendering must
  be what rendering would give now, although it also depends on the attachment's owner.
*/
module RenderCache {
  import opened Common
  import opened Ordering
  import opened Strconv
  import opened Bucket

  /** attachmentCacheBucketName */
  function CacheName(id: int, kind: string): string {
    Itoa(id) + "." + kind
  }

  /** strings.Cut(name, "."): what comes before the first dot. */
  function BeforeDot(name: string): string {
    if name == [] || name[0] == '.' then [] else [name[0]] + BeforeDot(name[1..])
  }

  /** The attachment a cache file belongs to. */
  function OwnerId(name: string): Option<int> {
    Atoi(BeforeDot(name))
  }

  lemma {:induction false} BeforeDotStops(a: string, rest: string)
    requires '.' !in a
    ensures BeforeDot(a + "." + rest) == a && BeforeDot(a) == a
  {
    var s := a + "." + rest;
    if a != [] {
      assert a == [a[0]] + a[1..] && '.' !in a[1..];
      assert s[1..] == a[1..] + "." + rest;
      BeforeDotStops(a[1..], rest);
    }
  }

  /** The compressed form of a file belongs to the same attachment. */
  lemma {:induction false} SameOwnerForm(name: string, rest: string)
    ensures BeforeDot(name + "." + rest) == BeforeDot(name)
  {
    var s := name + "." + rest;
    if name == [] {
      assert s[0] == '.';
    } else {
      assert s[1..] == name[1..] + "." + rest;
      SameOwnerForm(name[1..], rest);
    }
  }

  lemma NoDotInDecimal(id: int)
    requires Fits(id)
    ensures '.' !in Itoa(id)
  {
    hide Decimal;
    if id < 0 {
      DecimalIsRead(-id);
    } else {
      DecimalIsRead(id);
    }
  }

  lemma CacheNameOwner(id: int, kind: string)
    requires Fits(id)
    ensures OwnerId(CacheName(id, kind)) == Some(id)
  {
    hide Itoa, Atoi;
    AtoiItoa(id);
    NoDotInDecimal(id);
    BeforeDotStops(Itoa(id), kind);
  }

  const MDHTML := "mdhtml"

  lemma RenderNameIsPlain(id: int)
    ensures Plain(CacheName(id, MDHTML))
  {
    hide Itoa;
    var name := CacheName(id, MDHTML);
    assert name[|name| - 1] == 'l';
    forall other: string ensures name != other + ".zst" && name != other + ".gz" {
      assert (other + ".zst")[|other + ".zst"| - 1] == 't' && (other + ".gz")[|other + ".gz"| - 1] == 'z';
    }
  }

  // ---- Deleting the renderings of one attachment ----

  /** What DelAttachmentRenders leaves: every file that belongs to another attachment, or to none. */
  function Others(files: map<string, string>, id: int): map<string, string> {
    map name | name in files && OwnerId(name) != Some(id) :: files[name]
  }

  lemma RemovalKeepsOthers(d: Disk, entry: string, id: int)
    requires OwnerId(entry) == Some(id)
    ensures Others(Removed(d, entry).files, id) == Others(d.files, id)
  {
    hide Atoi, BeforeDot;
    SameOwnerForm(entry, "zst");
    SameOwnerForm(entry, "gz");
    assert entry + ".zst" == entry + "." + "zst" && entry + ".gz" == entry + "." + "gz";
  }

  method DelAttachmentRenders(bucket: LocalBucket, id: int)
    modifies bucket
    ensures bucket.disk == old(bucket.disk).(files := Others(old(bucket.disk.files), id))
    ensures forall name :: name in bucket.disk.files <==>
      name in old(bucket.disk.files) && Atoi(BeforeDot(name)) != Some(id)
    ensures forall name | name in bucket.disk.files :: bucket.disk.files[name] == old(bucket.disk.files)[name]
  {
    hide OwnerId, Removed;
    var entries := bucket.FileList();
    ghost var seen := {};
    while entries != {}
      invariant entries + seen == old(bucket.disk.files).Keys
      invariant bucket.disk.unzip == old(bucket.disk.unzip) && bucket.disk.files.Keys <= entries + seen
      invariant Others(bucket.disk.files, id) == Others(old(bucket.disk.files), id)
      invariant forall name | name in bucket.disk.files && name in seen :: OwnerId(name) != Some(id)
      decreases |entries|
    {
      var name := PickAny(entries);
      if OwnerId(name) == Some(id) {
        RemovalKeepsOthers(bucket.disk, name, id);
        RemovedOnly(bucket.disk, name);
        bucket.RemoveFile(name);
      }
      entries, seen := entries - {name}, seen + {name};
    }
    assert Others(bucket.disk.files, id) == bucket.disk.files;
    OthersAre(old(bucket.disk.files), id);
  }

  lemma OthersAre(files: map<string, string>, id: int)
    ensures forall name :: name in Others(files, id) <==> name in files && Atoi(BeforeDot(name)) != Some(id)
    ensures forall name | name in Others(files, id) :: Others(files, id)[name] == files[name]
  {
  }

  lemma RemovedOnly(d: Disk, name: string)
    ensures Removed(d, name).unzip == d.unzip && Removed(d, name).files.Keys <= d.files.Keys
    ensures name !in Removed(d, name).files
  {
  }

  /** Deleting one attachment's renderings empties its own names and leaves every other's as they were. */
  lemma DeletionIsPrecise(d: Disk, id: int, other: int)
    requires Fits(id) && Fits(other)
    ensures Lookup(d.(files := Others(d.files, id)), CacheName(other, MDHTML)) ==
      if other == id then None else Lookup(d, CacheName(other, MDHTML))
  {
    hide Itoa, OwnerId;
    var name := CacheName(other, MDHTML);
    CacheNameOwner(other, MDHTML);
    CacheNameOwner(other, MDHTML + ".zst");
    assert name + ".zst" == CacheName(other, MDHTML + ".zst");
  }

  lemma OtherNamesStay(d: Disk, id: int)
    requires Fits(id)
    ensures forall k | Fits(k) && k != id ::
      Lookup(d.(files := Others(d.files, id)), CacheName(k, MDHTML)) == Lookup(d, CacheName(k, MDHTML))
  {
    hide Lookup, Others, CacheName;
    forall k | Fits(k) && k != id
      ensures Lookup(d.(files := Others(d.files, id)), CacheName(k, MDHTML)) == Lookup(d, CacheName(k, MDHTML))
    {
      DeletionIsPrecise(d, id, k);
    }
  }

  // ---- Statements and their renderings ----

  datatype Owner = OfProblem(id: int) | OfPost(id: int)

  /** What a rendering reads of the owner: links name the problem by id, the post by its slug. */
  datatype Context = ProblemContext(id: int) | PostContext(slug: string)

  datatype Attachment = Attachment(owner: Owner, name: string, data: string)

  type Attachments = map<int, Attachment>
  type Slugs = map<int, string>

  function ContextOf(o: Owner, slugs: Slugs): Context {
    match o
    case OfProblem(id) => ProblemContext(id)
    case OfPost(id) => PostContext(if id in slugs then slugs[id] else "")
  }

  /** The renderer; it may fail. */
  type Renderer = (string, Context) -> Option<string>

  function Named(atts: Attachments, o: Owner, name: string): set<int> {
    set id | id in atts && atts[id].owner == o && atts[id].name == name
  }

  /** The attachment that a lookup by owner and name finds. */
  function Find(atts: Attachments, o: Owner, name: string): Option<int> {
    var ids := Named(atts, o, name);
    if ids == {} then None else Some(Min(ids))
  }

  /** A page, or an error: no such attachment, or the source together with the failure to render it. */
  datatype Reply = Page(content: string) | NotFound | NotRendered(source: string)

  /** What is served without any cache: markdown rendered if it can be, other formats as they are. */
  function Served(a: Attachment, slugs: Slugs, markdown: bool, render: Renderer): Reply {
    if !markdown then Page(a.data)
    else
      var html := render(a.data, ContextOf(a.owner, slugs));
      if html.Some? then Page(html.value) else NotRendered(a.data)
  }

  /** Whatever is cached for an attachment is its rendering as of now, except for those still to be cleared. */
  ghost predicate FreshBut(atts: Attachments, slugs: Slugs, d: Disk, render: Renderer, stale: set<int>) {
    forall id | id in atts && id !in stale && Lookup(d, CacheName(id, MDHTML)).Some? ::
      render(atts[id].data, ContextOf(atts[id].owner, slugs)) == Lookup(d, CacheName(id, MDHTML))
  }

  /** Ids fit the database's integers, and those not handed out yet have nothing cached. */
  ghost predicate Ids(atts: Attachments, nextId: int, d: Disk) {
    && 0 < nextId
    && (forall id | id in atts :: 0 < id < nextId && Fits(id))
    && (forall id | nextId <= id && Fits(id) :: Lookup(d, CacheName(id, MDHTML)).None?)
  }

  /** Clearing the renderings of one attachment leaves the others fresh and this one with nothing to be stale. */
  lemma ClearingRefreshes(atts: Attachments, slugs: Slugs, d: Disk, render: Renderer, nextId: int, stale: set<int>,
      id: int)
    requires Ids(atts, nextId, d) && Fits(id) && FreshBut(atts, slugs, d, render, stale)
    ensures
      var e := d.(files := Others(d.files, id));
      FreshBut(atts, slugs, e, render, stale - {id}) && Ids(atts, nextId, e)
  {
    hide Lookup, Others, CacheName;
    var e := d.(files := Others(d.files, id));
    forall k | Fits(k)
      ensures Lookup(e, CacheName(k, MDHTML)) == if k == id then None else Lookup(d, CacheName(k, MDHTML))
    {
      DeletionIsPrecise(d, id, k);
    }
  }

  /** Saving a rendering that is up to date keeps everything fresh. */
  lemma SavingKeepsFresh(atts: Attachments, slugs: Slugs, d: Disk, render: Renderer, nextId: int, id: int,
      html: string)
    requires Ids(atts, nextId, d) && FreshBut(atts, slugs, d, render, {}) && id in atts
    requires render(atts[id].data, ContextOf(atts[id].owner, slugs)) == Some(html)
    ensures
      var e := Written(d, CacheName(id, MDHTML), html);
      FreshBut(atts, slugs, e, render, {}) && Ids(atts, nextId, e)
  {
    hide Lookup, Written, CacheName, Plain;
    var e := Written(d, CacheName(id, MDHTML), html);
    forall k | Fits(k)
      ensures Lookup(e, CacheName(k, MDHTML)) == if k == id then Some(html) else Lookup(d, CacheName(k, MDHTML))
    {
      RenderNameIsPlain(id);
      RenderNameIsPlain(k);
      WriteIsMapUpdate(d, CacheName(id, MDHTML), html, CacheName(k, MDHTML));
      if CacheName(k, MDHTML) == CacheName(id, MDHTML) {
        CacheNameOwner(id, MDHTML);
        CacheNameOwner(k, MDHTML);
      }
    }
  }

  lemma OnlyStale(atts: Attachments, changed: Attachments, slugs: Slugs, newSlugs: Slugs, d: Disk, render: Renderer,
      stale: set<int>)
    requires FreshBut(atts, slugs, d, render, {}) && changed.Keys <= atts.Keys
    requires forall id | id in changed && id !in stale ::
      changed[id].data == atts[id].data && ContextOf(changed[id].owner, newSlugs) == ContextOf(atts[id].owner, slugs)
    ensures FreshBut(changed, newSlugs, d, render, stale)
  {
    hide Lookup, CacheName, ContextOf;
  }

  /** A lookup finds an attachment of that owner with that name, if there is one. */
  lemma FoundIsNamed(atts: Attachments, o: Owner, name: string)
    ensures
      match Find(atts, o, name)
      case None => forall id | id in atts :: !(atts[id].owner == o && atts[id].name == name)
      case Some(id) => id in atts && atts[id].owner == o && atts[id].name == name
  {
    assert forall id | id in atts && atts[id].owner == o && atts[id].name == name :: id in Named(atts, o, name);
  }

  class Site {
    var atts: Attachments
    var slugs: Slugs
    var nextId: int
    const bucket: LocalBucket
    const render: Renderer

    ghost predicate Valid()
      reads this, bucket
    {
      FreshBut(atts, slugs, bucket.disk, render, {}) && Ids(atts, nextId, bucket.disk)
    }

    /** The attachment's own data, or what rendering makes of it for its problem's id or its post's present slug. */
    ghost predicate Answers(a: Attachment, markdown: bool, reply: Reply)
      reads this
    {
      var context := match a.owner
        case OfProblem(id) => ProblemContext(id)
        case OfPost(id) => if id in slugs then PostContext(slugs[id]) else PostContext("");
      if !markdown then reply == Page(a.data)
      else if render(a.data, context).Some? then reply == Page(render(a.data, context).value)
      else reply == NotRendered(a.data)
    }

    lemma ServedAnswers(a: Attachment, markdown: bool)
      ensures Answers(a, markdown, Served(a, slugs, markdown, render))
    {
    }

    /** Over the tables and the cache as an earlier run left them. */
    constructor (atts: Attachments, slugs: Slugs, nextId: int, bucket: LocalBucket, render: Renderer)
      requires FreshBut(atts, slugs, bucket.disk, render, {}) && Ids(atts, nextId, bucket.disk)
      ensures Valid() && this.atts == atts && this.slugs == slugs && this.nextId == nextId
      ensures this.bucket == bucket && this.render == render
    {
      this.bucket, this.render := bucket, render;
      this.atts, this.slugs, this.nextId := atts, slugs, nextId;
    }

    /** RenderedProblemDesc and RenderedBlogPostDesc: with or without the cache, the same page is served. */
    method RenderedDesc(o: Owner, name: string, markdown: bool) returns (reply: Reply)
      requires Valid()
      modifies bucket
      ensures Valid()
      ensures
        var found := Find(atts, o, name);
        if found.None? then reply == NotFound
        else found.value in atts && reply == Served(atts[found.value], slugs, markdown, render)
      ensures reply.NotFound? ==> forall id | id in atts :: !(atts[id].owner == o && atts[id].name == name)
      ensures !reply.NotFound? ==>
        exists id :: id in atts && atts[id].owner == o && atts[id].name == name && Answers(atts[id], markdown, reply)
    {
      hide Lookup, Written, CacheName, Ids;
      FoundIsNamed(atts, o, name);
      var found := Find(atts, o, name);
      if found.None? {
        return NotFound;
      }
      var id := found.value;
      ServedAnswers(atts[id], markdown);
      if !markdown {
        return Page(atts[id].data);
      }
      var cached := bucket.Reader(CacheName(id, MDHTML));
      if cached.Some? {
        return Page(cached.value);
      }
      var data := atts[id].data;
      var html := render(data, ContextOf(o, slugs));
      if html.None? {
        return NotRendered(data);
      }
      SavingKeepsFresh(atts, slugs, bucket.disk, render, nextId, id, html.value);
      bucket.WriteFile(CacheName(id, MDHTML), html.value);
      reply := Page(html.value);
    }

    method CreateAttachment(a: Attachment) returns (id: int)
      requires Valid() && Fits(nextId)
      modifies this`atts, this`nextId
      ensures Valid() && id == old(nextId) && atts == old(atts)[id := a]
    {
      hide Lookup, CacheName, ContextOf;
      id := nextId;
      atts, nextId := atts[id := a], nextId + 1;
    }

    /** The row changes first, then its renderings go. */
    method UpdateAttachmentData(id: int, data: string)
      requires Valid() && Fits(id)
      modifies this`atts, bucket
      ensures Valid()
      ensures atts == if id in old(atts) then old(atts)[id := old(atts)[id].(data := data)] else old(atts)
      ensures forall k | Fits(k) && k != id ::
        Lookup(bucket.disk, CacheName(k, MDHTML)) == old(Lookup(bucket.disk, CacheName(k, MDHTML)))
    {
      hide Ids, FreshBut, Others;
      ghost var before := atts;
      if id in atts {
        atts := atts[id := atts[id].(data := data)];
      }
      OnlyStale(before, atts, slugs, slugs, bucket.disk, render, {id});
      SameIds(before, atts, nextId, bucket.disk);
      ClearingRefreshes(atts, slugs, bucket.disk, render, nextId, {id}, id);
      OtherNamesStay(bucket.disk, id);
      DelAttachmentRenders(bucket, id);
      assert {id} - {id} == {};
    }

    method RenameAttachment(id: int, name: string)
      requires Valid() && Fits(id)
      modifies this`atts, bucket
      ensures Valid()
      ensures atts == if id in old(atts) then old(atts)[id := old(atts)[id].(name := name)] else old(atts)
      ensures forall k | Fits(k) && k != id ::
        Lookup(bucket.disk, CacheName(k, MDHTML)) == old(Lookup(bucket.disk, CacheName(k, MDHTML)))
    {
      hide Ids, FreshBut, Others;
      ghost var before := atts;
      if id in atts {
        atts := atts[id := atts[id].(name := name)];
      }
      OnlyStale(before, atts, slugs, slugs, bucket.disk, render, {id});
      SameIds(before, atts, nextId, bucket.disk);
      ClearingRefreshes(atts, slugs, bucket.disk, render, nextId, {id}, id);
      OtherNamesStay(bucket.disk, id);
      DelAttachmentRenders(bucket, id);
      assert {id} - {id} == {};
    }

    method DeleteAttachment(id: int)
      requires Valid() && Fits(id)
      modifies this`atts, bucket
      ensures Valid() && atts == old(atts) - {id}
      ensures forall k | Fits(k) && k != id ::
        Lookup(bucket.disk, CacheName(k, MDHTML)) == old(Lookup(bucket.disk, CacheName(k, MDHTML)))
    {
      hide Ids, FreshBut, Others;
      ghost var before := atts;
      atts := atts - {id};
      OnlyStale(before, atts, slugs, slugs, bucket.disk, render, {id});
      SameIds(before, atts, nextId, bucket.disk);
      ClearingRefreshes(atts, slugs, bucket.disk, render, nextId, {id}, id);
      OtherNamesStay(bucket.disk, id);
      DelAttachmentRenders(bucket, id);
      assert {id} - {id} == {};
    }

    /** UpdateBlogPost with a new slug: every attachment of the post is cleared. */
    method UpdateBlogPostSlug(post: int, slug: string)
      requires Valid()
      modifies this`slugs, bucket
      ensures Valid() && slugs == old(slugs)[post := slug]
      ensures forall k | Fits(k) && !(k in atts && atts[k].owner == OfPost(post)) ::
        Lookup(bucket.disk, CacheName(k, MDHTML)) == old(Lookup(bucket.disk, CacheName(k, MDHTML)))
    {
      hide Ids, FreshBut, Others;
      var todo := OwnedBy(atts, OfPost(post));
      ghost var before := slugs;
      slugs := slugs[post := slug];
      ContextsKept(atts, before, post, slug);
      OnlyStale(atts, atts, before, slugs, bucket.disk, render, todo);
      while todo != {}
        invariant todo <= OwnedBy(atts, OfPost(post)) && slugs == old(slugs)[post := slug]
        invariant FreshBut(atts, slugs, bucket.disk, render, todo) && Ids(atts, nextId, bucket.disk)
        invariant forall k | Fits(k) && !(k in atts && atts[k].owner == OfPost(post)) ::
          Lookup(bucket.disk, CacheName(k, MDHTML)) == old(Lookup(bucket.disk, CacheName(k, MDHTML)))
        decreases |todo|
      {
        var id := PickAny(todo);
        OwnedFits(atts, OfPost(post), nextId, bucket.disk, id);
        ClearingRefreshes(atts, slugs, bucket.disk, render, nextId, todo, id);
        OtherNamesStay(bucket.disk, id);
        DelAttachmentRenders(bucket, id);
        todo := todo - {id};
      }
    }
  }

  /** BlogPostAttachments */
  function OwnedBy(atts: Attachments, o: Owner): set<int> {
    set id | id in atts && atts[id].owner == o
  }

  lemma OwnedFits(atts: Attachments, o: Owner, nextId: int, d: Disk, id: int)
    requires Ids(atts, nextId, d) && id in OwnedBy(atts, o)
    ensures Fits(id)
  {
  }

  lemma ContextsKept(atts: Attachments, slugs: Slugs, post: int, slug: string)
    ensures forall id | id in atts && id !in OwnedBy(atts, OfPost(post)) ::
      ContextOf(atts[id].owner, slugs[post := slug]) == ContextOf(atts[id].owner, slugs)
  {
  }

  lemma SameIds(atts: Attachments, changed: Attachments, nextId: int, d: Disk)
    requires Ids(atts, nextId, d) && changed.Keys <= atts.Keys
    ensures Ids(changed, nextId, d)
  {
  }
}
