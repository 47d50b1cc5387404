/**
 * A password-change request. The password is stored as given and normalised
 * only when read: a missing (null) password reads as the empty string, any
 * other is trimmed the way Java's String.trim does it.
 */
module PasswordChange {
  import opened Wrappers

  /** String.trim removes every character whose code is at most U+0020. */
  predicate IsTrimmable(c: char)
  {
    c <= ' '
  }

  /** `r` is s[i..i+|r|], and everything of s outside that slice is trimmable. */
  predicate TrimmedSlice(s: string, r: string, i: int)
  {
    && 0 <= i && i + |r| <= |s|
    && r == s[i..i + |r|]
    && (forall k :: 0 <= k < i ==> IsTrimmable(s[k]))
    && (forall k :: i + |r| <= k < |s| ==> IsTrimmable(s[k]))
  }

  /** Neither end of r is trimmable. */
  predicate Trimmed(r: string)
  {
    r == [] || (!IsTrimmable(r[0]) && !IsTrimmable(r[|r| - 1]))
  }

  /** Drops the trimmable characters at the start. */
  function TrimStart(s: string): (r: string)
    ensures |r| <= |s| && r == s[|s| - |r|..]
    ensures forall k :: 0 <= k < |s| - |r| ==> IsTrimmable(s[k])
    ensures r == [] || !IsTrimmable(r[0])
    decreases |s|
  {
    if s != [] && IsTrimmable(s[0]) then TrimStart(s[1..]) else s
  }

  /** Drops the trimmable characters at the end. */
  function TrimEnd(s: string): (r: string)
    ensures |r| <= |s| && r == s[..|r|]
    ensures forall k :: |r| <= k < |s| ==> IsTrimmable(s[k])
    ensures r == [] || !IsTrimmable(r[|r| - 1])
    decreases |s|
  {
    if s != [] && IsTrimmable(s[|s| - 1]) then TrimEnd(s[..|s| - 1]) else s
  }

  /** Java's String.trim */
  function Trim(s: string): (r: string)
    ensures Trimmed(r)
    ensures TrimmedSlice(s, r, |s| - |TrimStart(s)|)
  {
    var t := TrimStart(s);
    var r := TrimEnd(t);
    assert r == s[|s| - |t|..][..|r|];
    r
  }

  /**
   * Trim is the only slice of s with untrimmable ends whose surroundings are
   * all trimmable: it is the longest such slice and the shortest.
   */
  lemma {:induction false} TrimUnique(s: string, r: string, i: int)
    requires TrimmedSlice(s, r, i) && Trimmed(r)
    ensures r == Trim(s)
  {
    var t := Trim(s);
    var j := |s| - |TrimStart(s)|;
    if r != [] {
      // both slices start at the first untrimmable character of s
      assert s[i] == r[0];
      if t != [] {
        assert s[j] == t[0];
        assert i == j;
        assert s[i + |r| - 1] == r[|r| - 1];
        assert s[j + |t| - 1] == t[|t| - 1];
        assert |r| == |t|;
      } else {
        assert false;
      }
    }
  }

  /** Trimming a trimmed string changes nothing. */
  lemma TrimIdempotent(s: string)
    ensures Trim(Trim(s)) == Trim(s)
  {
    var t := Trim(s);
    assert TrimmedSlice(t, t, 0);
    TrimUnique(t, t, 0);
  }

  /** Surrounding blanks go, inner ones stay. */
  lemma TrimExample()
    ensures Trim(" \t secret word\n ") == "secret word"
  {
    var s := " \t secret word\n ";
    assert TrimmedSlice(s, "secret word", 3);
    TrimUnique(s, "secret word", 3);
  }

  class PasswordChangeRequest {
    var password: Option<string>

    /** A new request has no password. */
    constructor ()
      ensures password == None
    {
      password := None;
    }

    /** The password as read: "" when missing, otherwise trimmed. */
    function GetPassword(): (r: string)
      reads this
      ensures password.None? ==> r == ""
      ensures password.Some? ==> Trimmed(r) && exists i :: TrimmedSlice(password.value, r, i)
    {
      match password
      case None => ""
      case Some(p) => Trim(p)
    }

    /** Stores the value as given; trimming happens only on reading. */
    method SetPassword(value: Option<string>)
      modifies this
      ensures password == value
      ensures value.Some? ==> GetPassword() == Trim(value.value)
    {
      password := value;
    }
  }
}
