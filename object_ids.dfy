/** Object identifiers as the routes handle them: the request carries a string,
    the store keeps an ObjectId, and an ObjectId prints as 24 lower-case
    hexadecimal digits. */
module ObjectIds {
  import opened Values

  /** `mongoose.Types.ObjectId.isValid(s)` on a string: 24 hexadecimal digits, of either case. */
  predicate IsValid(s: string) {
    |s| == 24 && forall i :: 0 <= i < |s| ==> IsHexDigit(s[i])
  }

  /** The text `ObjectId.toString()` produces. */
  predicate IsCanonical(s: string) {
    |s| == 24 && forall i :: 0 <= i < |s| ==> IsLowerHexDigit(s[i])
  }

  /** Casting a valid string to an ObjectId and printing it again. */
  function Cast(s: string): (r: string)
    requires IsValid(s)
    ensures IsCanonical(r)
    ensures IsCanonical(s) ==> r == s
    ensures |r| == 24 && forall i :: 0 <= i < 24 ==> r[i] == LowerChar(s[i])
  {
    Lower(s)
  }

  /** Two valid strings cast to the same ObjectId exactly when they spell the
      same digits, whatever the case of their letters. */
  lemma CastSameIff(s: string, t: string)
    requires IsValid(s) && IsValid(t)
    ensures Cast(s) == Cast(t) <==> forall i :: 0 <= i < 24 ==> LowerChar(s[i]) == LowerChar(t[i])
  {
    if forall i :: 0 <= i < 24 ==> LowerChar(s[i]) == LowerChar(t[i]) {
      assert forall i :: 0 <= i < 24 ==> Cast(s)[i] == Cast(t)[i];
    } else {
      var i :| 0 <= i < 24 && LowerChar(s[i]) != LowerChar(t[i]);
      assert Cast(s)[i] != Cast(t)[i];
    }
  }
}
