/** The in-memory phonebook: a list of persons held by the server, read and changed by the
    /api/persons routes. */
module Phonebook {
  import opened Records
  import opened Http

  /** The JSON body of a create request; both fields may be absent. */
  datatype PersonBody = PersonBody(name: Option<string>, number: Option<string>)

  predicate UniqueIds(s: seq<Person>)
  {
    forall i, j :: 0 <= i < j < |s| ==> s[i].id != s[j].id
  }

  predicate UniqueNames(s: seq<Person>)
  {
    forall i, j :: 0 <= i < j < |s| ==> s[i].name != s[j].name
  }

  /** The entries whose id differs from `id`, in their original order. */
  function WithoutId(s: seq<Person>, id: int): seq<Person>
  {
    if s == [] then []
    else if s[0].id == id then WithoutId(s[1..], id)
    else [s[0]] + WithoutId(s[1..], id)
  }

  /** Exactly the entries with another id remain. */
  lemma {:induction false} WithoutIdContents(s: seq<Person>, id: int)
    ensures forall p :: p in WithoutId(s, id) <==> p in s && p.id != id
  {
    if s != [] {
      WithoutIdContents(s[1..], id);
      assert s == [s[0]] + s[1..];
    }
  }

  /** Filtering works piece by piece, so the remaining entries keep their relative order. */
  lemma {:induction false} WithoutIdAppend(s: seq<Person>, t: seq<Person>, id: int)
    ensures WithoutId(s + t, id) == WithoutId(s, id) + WithoutId(t, id)
  {
    if s == [] {
      assert s + t == t;
    } else {
      assert (s + t)[1..] == s[1..] + t;
      WithoutIdAppend(s[1..], t, id);
    }
  }

  /** Removing an id twice is removing it once. */
  lemma {:induction false} WithoutIdIdempotent(s: seq<Person>, id: int)
    ensures WithoutId(WithoutId(s, id), id) == WithoutId(s, id)
  {
    if s != [] {
      WithoutIdIdempotent(s[1..], id);
    }
  }

  /** Removing an id no entry has changes nothing. */
  lemma {:induction false} WithoutAbsentId(s: seq<Person>, id: int)
    requires forall i :: 0 <= i < |s| ==> s[i].id != id
    ensures WithoutId(s, id) == s
  {
    if s != [] {
      WithoutAbsentId(s[1..], id);
      assert s == [s[0]] + s[1..];
    }
  }

  /** Removing entries keeps ids and names unique. */
  lemma {:induction false} WithoutIdKeepsUnique(s: seq<Person>, id: int)
    requires UniqueIds(s) && UniqueNames(s)
    ensures UniqueIds(WithoutId(s, id)) && UniqueNames(WithoutId(s, id))
  {
    if s != [] {
      var rest := WithoutId(s[1..], id);
      WithoutIdKeepsUnique(s[1..], id);
      WithoutIdContents(s[1..], id);
      if s[0].id != id {
        var r := [s[0]] + rest;
        forall i, j | 0 <= i < j < |r|
          ensures r[i].id != r[j].id && r[i].name != r[j].name
        {
          if i == 0 {
            assert r[j] in s[1..];
            var k :| 0 <= k < |s[1..]| && s[1..][k] == r[j];
            assert s[k + 1] == r[j];
          } else {
            assert r[i] == rest[i - 1] && r[j] == rest[j - 1];
          }
        }
      }
    }
  }

  /** The greatest id of a non-empty list, keeping the earlier entry on ties. */
  function MaxId(s: seq<Person>): (m: int)
    requires s != []
    ensures forall i :: 0 <= i < |s| ==> s[i].id <= m
    ensures exists k :: 0 <= k < |s| && s[k].id == m
  {
    if |s| == 1 then s[0].id
    else
      var m' := MaxId(s[..|s| - 1]);
      assert forall i :: 0 <= i < |s| - 1 ==> s[..|s| - 1][i] == s[i];
      if s[|s| - 1].id > m' then s[|s| - 1].id else m'
  }

  /** The id the next created entry receives: one more than the greatest, 1 on an empty list.
      It is fresh, and the least integer above every id present. */
  function NextId(s: seq<Person>): (id: int)
    ensures s == [] ==> id == 1
    ensures forall p :: p in s ==> p.id < id
    ensures s != [] ==> exists k :: 0 <= k < |s| && s[k].id == id - 1
  {
    if s == [] then 1 else MaxId(s) + 1
  }

  class Phonebook {
    var notes: seq<Person>

    /** Ids are unique and names are unique. */
    ghost predicate Valid()
      reads this
    {
      UniqueIds(notes) && UniqueNames(notes)
    }

    constructor ()
      ensures Valid()
      ensures notes == [Person(1, "Arto Hellas", "040-123456"), Person(2, "Ada Lovelace", "39-44-5323523"),
                        Person(3, "Dan Abramov", "12-43-234345"), Person(4, "Mary Poppendieck", "39-23-6423122")]
    {
      notes := [Person(1, "Arto Hellas", "040-123456"), Person(2, "Ada Lovelace", "39-44-5323523"),
                Person(3, "Dan Abramov", "12-43-234345"), Person(4, "Mary Poppendieck", "39-23-6423122")];
    }

    /** Lists every entry. */
    method ListAll() returns (r: Response)
      ensures r == Response(200, PersonsJson(notes))
    {
      r := Response(200, PersonsJson(notes));
    }

    /** The index of the first entry that `matches` accepts, None when there is none. */
    method Find(matches: Person -> bool) returns (k: Option<nat>)
      ensures k.Some? ==> k.value < |notes| && matches(notes[k.value])
      ensures k.Some? ==> forall j :: 0 <= j < k.value ==> !matches(notes[j])
      ensures k.None? ==> forall j :: 0 <= j < |notes| ==> !matches(notes[j])
    {
      var i := 0;
      while i < |notes|
        invariant 0 <= i <= |notes|
        invariant forall j :: 0 <= j < i ==> !matches(notes[j])
      {
        if matches(notes[i]) {
          return Some(i);
        }
        i := i + 1;
      }
      k := None;
    }

    /** Shows the first entry with the numeric id of the path (None: the path segment is not a
        number), or answers 404 "Not Found" when no entry has it. */
    method Show(id: Option<int>) returns (r: Response)
      ensures r.status == 200 <==> id.Some? && exists k :: 0 <= k < |notes| && notes[k].id == id.value
      ensures r.status == 200 ==>
        exists k :: 0 <= k < |notes| && notes[k].id == id.value && r.body == PersonJson(notes[k])
                    && forall j :: 0 <= j < k ==> notes[j].id != id.value
      ensures r.status != 200 ==> r == Response(404, Text("Not Found"))
    {
      if id.None? {
        return Response(404, Text("Not Found"));
      }
      var k := Find((p: Person) => p.id == id.value);
      if k.Some? {
        r := Response(200, PersonJson(notes[k.value]));
      } else {
        r := Response(404, Text("Not Found"));
      }
    }

    /** Removes every entry with the id and always answers 204, whether or not one existed. */
    method Delete(id: Option<int>) returns (r: Response)
      modifies this
      ensures notes == if id.Some? then WithoutId(old(notes), id.value) else old(notes)
      ensures old(Valid()) ==> Valid()
      ensures r == Response(204, Empty)
    {
      if id.Some? {
        if Valid() {
          WithoutIdKeepsUnique(notes, id.value);
        }
        notes := WithoutId(notes, id.value);
      }
      r := Response(204, Empty);
    }

    /** The id a new entry receives: one more than the greatest id, or 1 on an empty list. */
    method GenerateId() returns (id: int)
      ensures id == NextId(notes)
      ensures forall p :: p in notes ==> p.id < id
    {
      var maxId := 0;
      if |notes| > 0 {
        maxId := notes[0].id;
        var i := 1;
        while i < |notes|
          invariant 1 <= i <= |notes|
          invariant maxId == MaxId(notes[..i])
        {
          assert notes[..i + 1][..i] == notes[..i];
          if notes[i].id > maxId {
            maxId := notes[i].id;
          }
          i := i + 1;
        }
        assert notes[..|notes|] == notes;
      }
      id := maxId + 1;
    }

    /** Adds an entry: absent name or number answers 400 "content missing", a name already
        listed answers 400 "name must be unique", both leaving the list as it was; otherwise one
        entry with a fresh id is appended and returned. */
    method Create(body: PersonBody) returns (r: Response)
      requires Valid()
      modifies this
      ensures Valid()
      ensures Missing(body.name) || Missing(body.number) ==>
        r == Response(400, Error("content missing")) && notes == old(notes)
      ensures (&& !Missing(body.name) && !Missing(body.number)
               && exists k :: 0 <= k < |old(notes)| && old(notes)[k].name == body.name.value) ==>
        r == Response(400, Error("name must be unique")) && notes == old(notes)
      ensures (&& !Missing(body.name) && !Missing(body.number)
               && forall k :: 0 <= k < |old(notes)| ==> old(notes)[k].name != body.name.value) ==>
        var person := Person(NextId(old(notes)), body.name.value, body.number.value);
        && notes == old(notes) + [person]
        && r == Response(200, PersonJson(person))
    {
      if Missing(body.name) || Missing(body.number) {
        return Response(400, Error("content missing"));
      }
      var name, number := body.name.value, body.number.value;
      var existing := Find((p: Person) => p.name == name);
      if existing.Some? {
        return Response(400, Error("name must be unique"));
      }
      var id := GenerateId();
      var person := Person(id, name, number);
      notes := notes + [person];
      r := Response(200, PersonJson(person));
    }
  }
}
