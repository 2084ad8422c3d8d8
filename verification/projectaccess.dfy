/**
 The project report's database-facing decisions: which sessions its base
 query selects (`ProjectReport._base_query`) and who may generate it
 (`ProjectReport.user_can_generate`). The projects collection is a map
 from id to document; ids are unique in a collection.
 */
module ProjectAccess {
  import opened Wrappers
  import opened Dates
  import opened ReportParams

  datatype Permission = Permission(id: string, access: string)

  datatype ProjectDoc = ProjectDoc(permissions: seq<Permission>)

  type ProjectStore = map<ObjectId, ProjectDoc>

  /**
   The filter `{'permissions._id': uid, 'permissions.access': 'admin'}` as
   the document store evaluates it on an array of embedded documents: each
   condition may be met by a different element.
   */
  predicate MatchesAsWritten(p: ProjectDoc, uid: string) {
    && (exists i :: 0 <= i < |p.permissions| && p.permissions[i].id == uid)
    && (exists j :: 0 <= j < |p.permissions| && p.permissions[j].access == "admin")
  }

  /** `uid` itself holds admin access on the project (one element meets both conditions). */
  predicate IsAdmin(p: ProjectDoc, uid: string) {
    exists i :: 0 <= i < |p.permissions| && p.permissions[i].id == uid && p.permissions[i].access == "admin"
  }

  ghost function Elements<T>(s: seq<T>): set<T> {
    set x | x in s
  }

  ghost predicate Distinct<T>(s: seq<T>) {
    forall i, j :: 0 <= i < j < |s| ==> s[i] != s[j]
  }

  /** `projects.count({'_id': {'$in': ids}, ...})`: how many stored projects named in `ids` satisfy `matches`. */
  function MatchCount(store: ProjectStore, ids: seq<ObjectId>, matches: ProjectDoc -> bool): nat {
    |set id | id in ids && id in store && matches(store[id])|
  }

  /** `user_can_generate` as written: the count under the unanchored filter equals `len(ids)`. */
  predicate UserCanGenerateAsWritten(store: ProjectStore, ids: seq<ObjectId>, uid: string) {
    MatchCount(store, ids, p => MatchesAsWritten(p, uid)) == |ids|
  }

  /** `user_can_generate` with both conditions anchored to one permission entry. */
  predicate UserCanGenerate(store: ProjectStore, ids: seq<ObjectId>, uid: string) {
    MatchCount(store, ids, p => IsAdmin(p, uid)) == |ids|
  }

  lemma {:induction false} ElementsBound<T>(s: seq<T>)
    ensures |Elements(s)| <= |s|
    ensures |Elements(s)| == |s| <==> Distinct(s)
  {
    if |s| > 0 {
      var init := s[..|s| - 1];
      var x := s[|s| - 1];
      assert s == init + [x];
      assert Elements(s) == Elements(init) + {x};
      ElementsBound(init);
      if x in init {
        assert Elements(s) == Elements(init);
        var k :| 0 <= k < |init| && init[k] == x;
        assert s[k] == s[|s| - 1];
      } else {
        assert Distinct(s) <==> Distinct(init) by {
          if Distinct(init) {
            forall i, j | 0 <= i < j < |s|
              ensures s[i] != s[j]
            {
              if j == |s| - 1 {
                assert s[i] == init[i];
              } else {
                assert s[i] == init[i] && s[j] == init[j];
              }
            }
          }
          if Distinct(s) {
            forall i, j | 0 <= i < j < |init|
              ensures init[i] != init[j]
            {
              assert s[i] == init[i] && s[j] == init[j];
            }
          }
        }
      }
    }
  }

  /** A subset is no larger, and a subset of the same size is the whole set. */
  lemma SubsetSize<T>(a: set<T>, b: set<T>)
    requires a <= b
    ensures |a| <= |b|
    ensures |a| == |b| ==> a == b
  {
    var rest := b - a;
    assert b == a + rest;
    assert |b| == |a| + |rest|;
  }

  /**
   The count equals the number of requested ids exactly when the ids are
   distinct and every one names a stored project that matches. Repeating an
   id therefore always denies.
   */
  lemma CountEqualsLengthIff(store: ProjectStore, ids: seq<ObjectId>, matches: ProjectDoc -> bool)
    ensures MatchCount(store, ids, matches) == |ids| <==>
      Distinct(ids) && forall i :: 0 <= i < |ids| ==> ids[i] in store && matches(store[ids[i]])
  {
    var hits := set id | id in ids && id in store && matches(store[id]);
    assert hits <= Elements(ids);
    ElementsBound(ids);
    SubsetSize(hits, Elements(ids));
    if |hits| == |ids| {
      forall i | 0 <= i < |ids|
        ensures ids[i] in store && matches(store[ids[i]])
      {
        assert ids[i] in Elements(ids);
      }
    }
    if Distinct(ids) && forall i :: 0 <= i < |ids| ==> ids[i] in store && matches(store[ids[i]]) {
      assert hits == Elements(ids);
    }
  }

  /** The generate check holds exactly when the ids are distinct and the user is admin on every one. */
  lemma UserCanGenerateIff(store: ProjectStore, ids: seq<ObjectId>, uid: string)
    ensures UserCanGenerate(store, ids, uid) <==>
      Distinct(ids) && forall i :: 0 <= i < |ids| ==> ids[i] in store && IsAdmin(store[ids[i]], uid)
  {
    CountEqualsLengthIff(store, ids, p => IsAdmin(p, uid));
  }

  /** The check as written holds exactly when the ids are distinct and each project lists the user and some admin. */
  lemma UserCanGenerateAsWrittenIff(store: ProjectStore, ids: seq<ObjectId>, uid: string)
    ensures UserCanGenerateAsWritten(store, ids, uid) <==>
      Distinct(ids) && forall i :: 0 <= i < |ids| ==> ids[i] in store && MatchesAsWritten(store[ids[i]], uid)
  {
    CountEqualsLengthIff(store, ids, p => MatchesAsWritten(p, uid));
  }

  /** The anchored check is the stricter one: every user it admits, the check as written admits too. */
  lemma AnchoredImpliesAsWritten(store: ProjectStore, ids: seq<ObjectId>, uid: string)
    ensures UserCanGenerate(store, ids, uid) ==> UserCanGenerateAsWritten(store, ids, uid)
  {
    UserCanGenerateIff(store, ids, uid);
    UserCanGenerateAsWrittenIff(store, ids, uid);
    if UserCanGenerate(store, ids, uid) {
      forall i | 0 <= i < |ids|
        ensures MatchesAsWritten(store[ids[i]], uid)
      {
        var perms := store[ids[i]].permissions;
        var k :| 0 <= k < |perms| && perms[k].id == uid && perms[k].access == "admin";
      }
    }
  }

  /**
   A user with read-only access on a project that has some other admin
   passes the check as written, though they are not an admin.
   */
  lemma NonAdminPassesAsWritten()
    ensures var id := ObjectId([1]);
      var store := map[id := ProjectDoc([Permission("reader", "ro"), Permission("owner", "admin")])];
      UserCanGenerateAsWritten(store, [id], "reader") && !UserCanGenerate(store, [id], "reader")
  {
    var id := ObjectId([1]);
    var doc := ProjectDoc([Permission("reader", "ro"), Permission("owner", "admin")]);
    var store := map[id := doc];
    assert doc.permissions[0].id == "reader" && doc.permissions[1].access == "admin";
    UserCanGenerateAsWrittenIff(store, [id], "reader");
    UserCanGenerateIff(store, [id], "reader");
  }

  /** A session as the base query sees it. */
  datatype Session = Session(project: ObjectId, created: Date)

  /** The `created` part of a query: a bound left `Absent` is not set. */
  datatype CreatedRange = CreatedRange(gte: DateArg, lte: DateArg)

  datatype SessionQuery = SessionQuery(project: ObjectId, created: Option<CreatedRange>)

  /** `ProjectReport._base_query(pid)`: the `created` key exists when either date is not None. */
  function BaseQuery(pid: ObjectId, p: ProjectParams): (q: SessionQuery)
    ensures q.project == pid
    ensures q.created.None? <==> p.start.Absent? && p.end.Absent?
  {
    if p.start.Absent? && p.end.Absent? then SessionQuery(pid, None)
    else SessionQuery(pid, Some(CreatedRange(p.start, p.end)))
  }

  /**
   Whether the store selects a session with this query. A bound that is the
   empty text never matches a timestamp: comparisons only match values of
   the same type.
   */
  predicate Selects(q: SessionQuery, s: Session) {
    && s.project == q.project
    && match q.created
       case None => true
       case Some(range) =>
         && (match range.gte case Absent => true case Blank => false case At(d) => NotAfter(d, s.created))
         && (match range.lte case Absent => true case Blank => false case At(d) => NotAfter(s.created, d))
  }

  /**
   The base query selects exactly the project's sessions created inside the
   inclusive date range, and nothing when a date parameter was given empty.
   */
  lemma BaseQuerySelectsRange(pid: ObjectId, p: ProjectParams, s: Session)
    ensures Selects(BaseQuery(pid, p), s) <==>
      && s.project == pid
      && !p.start.Blank? && !p.end.Blank?
      && (p.start.At? ==> NotAfter(p.start.date, s.created))
      && (p.end.At? ==> NotAfter(s.created, p.end.date))
  {
  }
}
