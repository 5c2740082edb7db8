/**
 * The `specializations` catalogue and the `trainer_specializations` link
 * table, with the two queries the handlers run over them: which of a list of
 * requested ids name an active specialization, and which of them a trainer
 * already has.
 */
module SpecializationModel {
  import opened Js

  datatype SpecializationRow = SpecializationRow(id: int, name: string, isActive: bool)

  datatype ExperienceLevel = Beginner | Intermediate | Expert

  /** One row of `trainer_specializations`; `createdAt` in milliseconds. */
  datatype LinkRow = LinkRow(
    trainerId: int,
    specializationId: int,
    experienceLevel: Option<ExperienceLevel>,
    certification: Option<string>,
    createdAt: int)

  /** The ids the list mentions. */
  function Elements(ids: seq<int>): set<int> {
    set i | i in ids
  }

  /** A list has at most as many different elements as entries, and exactly
      as many when no entry repeats. */
  lemma {:induction false} ElementsCard(ids: seq<int>)
    ensures |Elements(ids)| <= |ids|
    ensures |Elements(ids)| == |ids| <==> Distinct(ids)
  {
    if ids != [] {
      var rest := ids[1..];
      ElementsCard(rest);
      assert Elements(ids) == {ids[0]} + Elements(rest);
      if ids[0] in rest {
        assert Elements(ids) == Elements(rest);
        var j :| 0 <= j < |rest| && rest[j] == ids[0];
        assert ids[0] == ids[j + 1];
      } else {
        assert Elements(ids) - {ids[0]} == Elements(rest);
        if Distinct(rest) {
          forall i, j | 0 <= i < j < |ids| ensures ids[i] != ids[j] {
            if i == 0 { assert ids[j] == rest[j - 1]; }
            else { assert ids[i] == rest[i - 1] && ids[j] == rest[j - 1]; }
          }
        } else {
          var i, j :| 0 <= i < j < |rest| && rest[i] == rest[j];
          assert ids[i + 1] == ids[j + 1];
        }
      }
    }
  }

  /** `Specialization.findAll({ where: { id: { [Op.in]: ids }, isActive: true } })`:
      the catalogue rows, one per id, that the list names and that are active. */
  function ActiveMatches(catalogue: map<int, SpecializationRow>, ids: seq<int>): (r: set<int>)
    ensures forall i :: i in r <==> i in ids && i in catalogue && catalogue[i].isActive
  {
    set i | i in ids && i in catalogue && catalogue[i].isActive
  }

  /** The handlers accept a list of ids when its length equals the number of
      rows the query finds. That happens exactly when no id repeats and every
      id names an active specialization, so a duplicated id is refused. */
  lemma CountCheckAccepts(catalogue: map<int, SpecializationRow>, ids: seq<int>)
    ensures |ids| == |ActiveMatches(catalogue, ids)| <==>
            Distinct(ids) && forall i :: i in ids ==> i in catalogue && catalogue[i].isActive
  {
    var found := ActiveMatches(catalogue, ids);
    ElementsCard(ids);
    assert found <= Elements(ids);
    if |ids| == |found| {
      var rest := Elements(ids) - found;
      assert Elements(ids) == found + rest && found * rest == {};
      assert rest == {};
      forall i | i in ids ensures i in found {
        assert i in Elements(ids) && i !in rest;
      }
      assert found == Elements(ids);
    }
    if Distinct(ids) && forall i :: i in ids ==> i in catalogue && catalogue[i].isActive {
      assert found == Elements(ids);
    }
  }

  /** One element of the request's `specializations` array. */
  datatype SpecRequest = SpecRequest(
    specializationId: int,
    experienceLevel: Option<ExperienceLevel>,
    certification: Option<string>)

  function RequestedIds(requests: seq<SpecRequest>): (ids: seq<int>)
    ensures |ids| == |requests|
    ensures forall k :: 0 <= k < |ids| ==> ids[k] == requests[k].specializationId
  {
    seq(|requests|, k requires 0 <= k < |requests| => requests[k].specializationId)
  }

  /** The specialization ids linked to a trainer. */
  function LinkedIds(links: seq<LinkRow>, trainerId: int): (r: set<int>)
    ensures forall i :: i in r <==> exists l :: l in links && l.trainerId == trainerId && l.specializationId == i
  {
    set l | l in links && l.trainerId == trainerId :: l.specializationId
  }

  /** `TrainerSpecialization.findAll` over the trainer's links to the requested
      ids, reduced to the set of their specialization ids. */
  function ExistingIds(links: seq<LinkRow>, trainerId: int, ids: seq<int>): (r: set<int>)
    ensures forall i :: i in r <==> i in ids && i in LinkedIds(links, trainerId)
  {
    set l | l in links && l.trainerId == trainerId && l.specializationId in ids :: l.specializationId
  }

  /** `specializations.filter(spec => !existing.has(spec.specializationId))`. */
  function ToAdd(requests: seq<SpecRequest>, existing: set<int>): (r: seq<SpecRequest>)
    ensures |r| <= |requests|
    ensures forall s :: s in r <==> s in requests && s.specializationId !in existing
    ensures (forall s :: s in requests ==> s.specializationId in existing) ==> r == []
  {
    if requests == [] then []
    else
      var rest := ToAdd(requests[1..], existing);
      assert requests == [requests[0]] + requests[1..];
      if requests[0].specializationId in existing then rest else [requests[0]] + rest
  }

  /** The rows `bulkCreate` inserts: one per request, carrying the trainer's id,
      the request's level and certification, and the creation time. */
  function NewLinks(trainerId: int, requests: seq<SpecRequest>, now: int): (r: seq<LinkRow>)
    ensures |r| == |requests|
    ensures forall k :: 0 <= k < |r| ==>
      r[k] == LinkRow(trainerId, requests[k].specializationId, requests[k].experienceLevel,
                      requests[k].certification, now)
  {
    seq(|requests|, k requires 0 <= k < |requests| =>
      LinkRow(trainerId, requests[k].specializationId, requests[k].experienceLevel,
              requests[k].certification, now))
  }

  /** After the insert every requested id is linked to the trainer: the ids
      already linked were skipped and the others were added. */
  lemma AllRequestedLinked(links: seq<LinkRow>, trainerId: int, requests: seq<SpecRequest>, now: int)
    ensures var added := ToAdd(requests, ExistingIds(links, trainerId, RequestedIds(requests)));
            forall s :: s in requests ==>
              s.specializationId in LinkedIds(links + NewLinks(trainerId, added, now), trainerId)
  {
    var existing := ExistingIds(links, trainerId, RequestedIds(requests));
    var added := ToAdd(requests, existing);
    var after := links + NewLinks(trainerId, added, now);
    forall s | s in requests
      ensures s.specializationId in LinkedIds(after, trainerId)
    {
      var k :| 0 <= k < |requests| && requests[k] == s;
      assert s.specializationId == RequestedIds(requests)[k];
      if s.specializationId in existing {
        var l :| l in links && l.trainerId == trainerId && l.specializationId == s.specializationId;
        assert l in after;
      } else {
        assert s in added;
        var j :| 0 <= j < |added| && added[j] == s;
        var l := NewLinks(trainerId, added, now)[j];
        assert l in after;
      }
    }
  }

  /** `order: [["createdAt", "DESC"]]`: newest first. */
  predicate NewestFirst(links: seq<LinkRow>) {
    forall i, j :: 0 <= i < j < |links| ==> links[i].createdAt >= links[j].createdAt
  }

  /** A link at least as new as the head of a newest-first list can go in
      front of it. */
  lemma PrependNewest(l: LinkRow, sorted: seq<LinkRow>)
    requires NewestFirst(sorted)
    requires sorted == [] || l.createdAt >= sorted[0].createdAt
    ensures NewestFirst([l] + sorted)
  {
    var r := [l] + sorted;
    forall i, j | 0 <= i < j < |r| ensures r[i].createdAt >= r[j].createdAt {
      if i == 0 && j > 1 {
        assert r[j] == sorted[j - 1];
        assert sorted[0].createdAt >= sorted[j - 1].createdAt;
      }
    }
  }

  /** Places a link into a list that is already newest first. */
  function InsertByDate(l: LinkRow, sorted: seq<LinkRow>): (r: seq<LinkRow>)
    requires NewestFirst(sorted)
    ensures |r| == |sorted| + 1 && (r[0] == l || (sorted != [] && r[0] == sorted[0]))
    ensures NewestFirst(r)
    ensures multiset(r) == multiset(sorted) + multiset{l}
  {
    if sorted == [] then [l]
    else if l.createdAt >= sorted[0].createdAt then
      PrependNewest(l, sorted);
      [l] + sorted
    else
      assert sorted == [sorted[0]] + sorted[1..];
      var rest := InsertByDate(l, sorted[1..]);
      PrependNewest(sorted[0], rest);
      [sorted[0]] + rest
  }

  /** The rows of `getAllTrainerSpecializations`: all the links, newest first.
      Rows created at the same instant may come in either order. */
  function SortNewestFirst(links: seq<LinkRow>): (r: seq<LinkRow>)
    ensures NewestFirst(r)
    ensures multiset(r) == multiset(links)
  {
    if links == [] then []
    else
      assert links == [links[0]] + links[1..];
      InsertByDate(links[0], SortNewestFirst(links[1..]))
  }
}
