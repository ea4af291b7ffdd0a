/**
 * The recipient handlers of the server: `GET /api/emails`, `POST /api/emails` and
 * `DELETE /api/emails/:email`. The JSON document on disk is modelled by the value of its
 * `recipients` field, held in an object that the handlers read and overwrite.
 */
module RecipientStore {
  import opened Wrappers
  import opened Sequences

  /** The value found under the `recipients` key of the stored document. */
  datatype Field =
    | Missing                   // the key is absent
    | Items(list: seq<string>)  // a JSON array of addresses
    | Scalar(truthy: bool)      // any other JSON value (null, a number, a string, an object)

  /** JavaScript truthiness of the field: every array, even an empty one, is truthy. */
  predicate Truthy(f: Field) {
    match f
    case Missing => false
    case Items(_) => true
    case Scalar(t) => t
  }

  /** A handler's JSON reply: `{success: true, emails}` or an error status with its message. */
  datatype Response = Ok(emails: Field) | Error(status: nat, message: string)

  /** `!email` on the request body's `email`: absent or the empty string. */
  predicate Falsy(email: Option<string>) {
    email == None || email == Some("")
  }

  /** `json.recipients || []`: a truthy value is returned as it is, a falsy or absent one as `[]`. */
  function ListReply(f: Field): (r: Field)
    ensures Truthy(f) ==> r == f
    ensures !Truthy(f) ==> r == Items([])
    ensures f.Items? ==> r == f
    ensures f.Missing? ==> r == Items([])
    ensures Truthy(r)
  {
    if Truthy(f) then f else Items([])
  }

  /** The list the add handler works on: the stored array, or `[]` if the field is not an array. */
  function Repaired(f: Field): (xs: seq<string>)
    ensures f.Items? ==> xs == f.list
    ensures !f.Items? ==> xs == []
  {
    if f.Items? then f.list else []
  }

  /** The list the add handler ends with: `email` pushed onto the repaired list unless already there. */
  function Added(f: Field, email: string): (r: seq<string>)
    ensures email in r
    ensures |Repaired(f)| <= |r| <= |Repaired(f)| + 1
    ensures r[..|Repaired(f)|] == Repaired(f)
    ensures email in Repaired(f) <==> r == Repaired(f)
    ensures email !in Repaired(f) ==> r[|Repaired(f)|] == email
  {
    var xs := Repaired(f);
    if email in xs then xs else xs + [email]
  }

  /** Adding the same address twice is adding it once. */
  lemma AddIdempotent(f: Field, email: string)
    ensures Added(Items(Added(f, email)), email) == Added(f, email)
  {
  }

  /** A field that is not an array is replaced by exactly `[email]`. */
  lemma AddToMalformed(f: Field, email: string)
    requires !f.Items?
    ensures Added(f, email) == [email]
  {
  }

  /** No address appears twice in `xs`. */
  predicate Unique(xs: seq<string>) {
    forall i, j :: 0 <= i < j < |xs| ==> xs[i] != xs[j]
  }

  /** Adding keeps a duplicate-free list duplicate-free, so the list stays a set of addresses. */
  lemma AddKeepsUnique(f: Field, email: string)
    requires Unique(Repaired(f))
    ensures Unique(Added(f, email))
  {
  }

  /** After adding, the address occurs exactly once, however often it was added, if it was absent before. */
  lemma AddTwiceOnce(f: Field, email: string)
    requires email !in Repaired(f)
    ensures multiset(Added(Items(Added(f, email)), email))[email] == 1
  {
    var xs := Repaired(f);
    assert multiset(xs)[email] == 0;
    assert multiset(xs + [email]) == multiset(xs) + multiset([email]);
  }

  /** The delete handler's list: `recipients.filter(e => e !== email)`. */
  function Without(xs: seq<string>, email: string): (r: seq<string>)
    ensures email !in r
    ensures forall x :: x in r <==> x in xs && x != email
    ensures |r| <= |xs|
  {
    Filter(xs, x => x != email)
  }

  /** Delete keeps the other addresses in their order and with all their occurrences. */
  lemma WithoutKeepsOthers(xs: seq<string>, email: string)
    ensures IsSubsequence(Without(xs, email), xs)
    ensures forall x :: x != email ==> multiset(Without(xs, email))[x] == multiset(xs)[x]
    ensures multiset(Without(xs, email))[email] == 0
  {
    FilterIsSubsequence(xs, x => x != email);
    forall x {
      FilterCounts(xs, y => y != email, x);
    }
  }

  /** Deleting an address that is not there returns the list unchanged. */
  lemma WithoutAbsent(xs: seq<string>, email: string)
    requires email !in xs
    ensures Without(xs, email) == xs
  {
    assert forall i :: 0 <= i < |xs| ==> xs[i] != email;
    FilterKeepsAll(xs, x => x != email);
  }

  /** Delete undoes an add of an address that was not yet stored. */
  lemma DeleteUndoesAdd(xs: seq<string>, email: string)
    requires email !in xs
    ensures Without(Added(Items(xs), email), email) == xs
  {
    WithoutAppend(xs, email);
  }

  /** Appending an address and then deleting it gives back the list. */
  lemma {:induction false} WithoutAppend(xs: seq<string>, email: string)
    requires email !in xs
    ensures Without(xs + [email], email) == xs
  {
    if xs == [] {
      assert [] + [email] == [email];
      assert [email][1..] == [];
    } else {
      assert (xs + [email])[0] == xs[0];
      assert (xs + [email])[1..] == xs[1..] + [email];
      WithoutAppend(xs[1..], email);
      assert xs == [xs[0]] + xs[1..];
    }
  }

  /** The recipients document, reduced to its `recipients` field. */
  class EmailsFile {
    var recipients: Field

    constructor (contents: Field)
      ensures recipients == contents
    {
      recipients := contents;
    }

    /** `GET /api/emails`. */
    method List() returns (resp: Response)
      ensures resp == Ok(ListReply(recipients))
      ensures recipients.Items? ==> resp.emails == recipients
    {
      var data := recipients;
      resp := Ok(if Truthy(data) then data else Items([]));
    }

    /**
     * `POST /api/emails`. Returns the reply and whether the file was written; a write
     * replaces the stored field by the new array.
     */
    method Add(email: Option<string>) returns (resp: Response, wrote: bool)
      modifies this
      ensures Falsy(email) ==> resp == Error(400, "Email is required.") && !wrote
      ensures Falsy(email) || (email.value in Repaired(old(recipients))) ==> recipients == old(recipients)
      ensures !Falsy(email) ==>
        && resp == Ok(Items(Added(old(recipients), email.value)))
        && wrote == (email.value !in Repaired(old(recipients)))
        && (wrote ==> recipients == Items(Added(old(recipients), email.value)))
    {
      if email == None || email == Some("") {
        return Error(400, "Email is required."), false;
      }
      var e := email.value;
      var data := recipients;
      if !data.Items? {
        data := Items([]);
      }
      wrote := false;
      if e !in data.list {
        data := Items(data.list + [e]);
        recipients := data;
        wrote := true;
      }
      resp := Ok(data);
    }

    /** `DELETE /api/emails/:email`. Returns the reply and whether the file was written. */
    method Delete(email: string) returns (resp: Response, wrote: bool)
      modifies this
      ensures !old(recipients).Items? ==>
        resp == Error(500, "Invalid email list format") && !wrote && recipients == old(recipients)
      ensures old(recipients).Items? ==>
        wrote && recipients == Items(Without(old(recipients).list, email)) && resp == Ok(recipients)
    {
      var data := recipients;
      if !data.Items? {
        return Error(500, "Invalid email list format"), false;
      }
      var updated := Without(data.list, email);
      recipients := Items(updated);
      wrote := true;
      resp := Ok(Items(updated));
    }
  }
}
