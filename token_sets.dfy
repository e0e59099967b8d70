/** The two token sets of the bot: `ActiveTokensState` (tokens with live streams)
    and `AllowedTokensState` (the allow-list). Both wrap a JavaScript `Set`, which
    keeps members in insertion order without duplicates; here that is a sequence
    without duplicates. */
module TokenSets {

  predicate NoDuplicates(s: seq<string>) {
    forall i, j :: 0 <= i < j < |s| ==> s[i] != s[j]
  }

  /** `Set.add`: appends a token that is not yet a member, otherwise changes nothing. */
  function SetAdd(s: seq<string>, t: string): (r: seq<string>)
    ensures forall x :: x in r <==> x in s || x == t
    ensures t in s ==> r == s
    ensures t !in s ==> r == s + [t]
    ensures NoDuplicates(s) ==> NoDuplicates(r)
  {
    if t in s then s else s + [t]
  }

  /** Without duplicates, the tail has none and does not hold the head. */
  lemma NoDuplicatesTail(s: seq<string>)
    requires s != [] && NoDuplicates(s)
    ensures NoDuplicates(s[1..]) && s[0] !in s[1..]
  {
    forall i, j | 0 <= i < j < |s[1..]| ensures s[1..][i] != s[1..][j] {
      assert s[1..][i] == s[i + 1] && s[1..][j] == s[j + 1];
    }
    forall k | 0 <= k < |s[1..]| ensures s[1..][k] != s[0] {
      assert s[1..][k] == s[k + 1];
    }
  }

  /** Cutting slot `j` out of the tail and putting the head back cuts slot `j + 1`. */
  lemma CutBelowHead(s: seq<string>, j: nat, rest: seq<string>)
    requires j + 1 < |s| && rest == s[1..][..j] + s[1..][j + 1..]
    ensures [s[0]] + rest == s[..j + 1] + s[j + 2..]
  {
    assert s[1..][..j] == s[1..j + 1];
    assert s[1..][j + 1..] == s[j + 2..];
    assert s[..j + 1] == [s[0]] + s[1..j + 1];
  }

  /** Putting the head back in front of the tail without `t` keeps the result
      duplicate-free. */
  lemma ConsKeepsDistinct(s: seq<string>, rest: seq<string>)
    requires s != [] && NoDuplicates(s)
    requires NoDuplicates(s[1..]) ==> NoDuplicates(rest)
    requires forall x :: x in rest ==> x in s[1..]
    ensures NoDuplicates([s[0]] + rest)
  {
    NoDuplicatesTail(s);
    var r := [s[0]] + rest;
    forall i, j | 0 <= i < j < |r| ensures r[i] != r[j] {
      if i == 0 {
        assert r[j] == rest[j - 1];
      } else {
        assert r[i] == rest[i - 1] && r[j] == rest[j - 1];
      }
    }
  }

  /** Cutting `t` out of the tail and putting the head back cuts `t` out of `s`. */
  lemma ConsKeepsCut(s: seq<string>, t: string, rest: seq<string>)
    requires s != [] && s[0] != t && NoDuplicates(s) && t in s
    requires NoDuplicates(s[1..]) && t in s[1..] ==>
      exists k :: 0 <= k < |s[1..]| && s[1..][k] == t && rest == s[1..][..k] + s[1..][k + 1..]
    ensures exists k :: 0 <= k < |s| && s[k] == t && [s[0]] + rest == s[..k] + s[k + 1..]
  {
    NoDuplicatesTail(s);
    assert t in s[1..] by {
      var i :| 0 <= i < |s| && s[i] == t;
      assert s[1..][i - 1] == t;
    }
    var j :| 0 <= j < |s[1..]| && s[1..][j] == t && rest == s[1..][..j] + s[1..][j + 1..];
    CutBelowHead(s, j, rest);
    assert s[j + 1] == t;
  }

  /** `Set.delete`: drops the token and keeps the others in their order. */
  function SetRemove(s: seq<string>, t: string): (r: seq<string>)
    ensures forall x :: x in r <==> x in s && x != t
    ensures |r| <= |s|
    ensures t !in s ==> r == s
    ensures NoDuplicates(s) ==> NoDuplicates(r)
    ensures NoDuplicates(s) && t in s ==> exists k :: 0 <= k < |s| && s[k] == t && r == s[..k] + s[k + 1..]
  {
    if s == [] then []
    else
      var rest := SetRemove(s[1..], t);
      assert forall x :: x in s <==> x == s[0] || x in s[1..];
      if s[0] == t then
        assert NoDuplicates(s) ==> rest == s[..0] + s[1..] by {
          if NoDuplicates(s) {
            NoDuplicatesTail(s);
          }
        }
        rest
      else
        assert NoDuplicates(s) ==> NoDuplicates([s[0]] + rest) by {
          if NoDuplicates(s) {
            ConsKeepsDistinct(s, rest);
          }
        }
        assert NoDuplicates(s) && t in s ==> exists k :: 0 <= k < |s| && s[k] == t && [s[0]] + rest == s[..k] + s[k + 1..] by {
          if NoDuplicates(s) && t in s {
            ConsKeepsCut(s, t, rest);
          }
        }
        [s[0]] + rest
  }

  /** Adding the same token twice is the same as adding it once. */
  lemma AddTwiceIsAddOnce(s: seq<string>, t: string)
    ensures SetAdd(SetAdd(s, t), t) == SetAdd(s, t)
  {
  }

  /** `ActiveTokensState`: the tokens whose market streams are open. */
  class ActiveTokensState {
    var active: seq<string>

    ghost predicate Valid()
      reads this
    {
      NoDuplicates(active)
    }

    constructor()
      ensures Valid() && active == []
    {
      active := [];
    }

    method Add(token: string)
      requires Valid()
      modifies this
      ensures Valid()
      ensures active == SetAdd(old(active), token)
    {
      if token !in active {
        active := active + [token];
      }
    }

    method Remove(token: string)
      requires Valid()
      modifies this
      ensures Valid()
      ensures active == SetRemove(old(active), token)
    {
      active := SetRemove(active, token);
    }

    function Has(token: string): bool
      reads this
    {
      token in active
    }

    function GetAll(): seq<string>
      reads this
    {
      active
    }

    method Clear()
      modifies this
      ensures Valid() && active == []
    {
      active := [];
    }
  }

  /** `AllowedTokensState`: the tokens the bot may trade. */
  class AllowedTokensState {
    var allowed: seq<string>

    ghost predicate Valid()
      reads this
    {
      NoDuplicates(allowed)
    }

    constructor()
      ensures Valid() && allowed == []
    {
      allowed := [];
    }

    /** Seeds the allow-list with the three tokens the bot trades. */
    method OnModuleInit()
      requires Valid()
      modifies this
      ensures Valid()
      ensures allowed == SetAdd(SetAdd(SetAdd(old(allowed), "ACAUSDT"), "BTCUSDT"), "ETHUSDT")
      ensures "ACAUSDT" in allowed && "BTCUSDT" in allowed && "ETHUSDT" in allowed
    {
      Add("ACAUSDT");
      Add("BTCUSDT");
      Add("ETHUSDT");
    }

    function GetAll(): seq<string>
      reads this
    {
      allowed
    }

    function Has(token: string): bool
      reads this
    {
      token in allowed
    }

    method Add(token: string)
      requires Valid()
      modifies this
      ensures Valid()
      ensures allowed == SetAdd(old(allowed), token)
    {
      if token !in allowed {
        allowed := allowed + [token];
      }
    }

    method Remove(token: string)
      requires Valid()
      modifies this
      ensures Valid()
      ensures allowed == SetRemove(old(allowed), token)
    {
      allowed := SetRemove(allowed, token);
    }

    method Clear()
      modifies this
      ensures Valid() && allowed == []
    {
      allowed := [];
    }
  }
}
