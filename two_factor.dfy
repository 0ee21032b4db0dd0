/**
 * The two helpers of `backend/utils/twoFactor.js` that are not the OTP library:
 * the guard in front of code verification and the grouping of a secret into
 * blocks of four for manual entry. Code checking itself (RFC 6238) enters as
 * an abstract predicate.
 */
module TwoFactor {
  import opened Wrappers
  import opened Text

  /**
   * `replace(/(.{4})/g, '$1 ')`: scanning left to right, four characters none of
   * which is a line terminator are copied followed by a space; where no such
   * run starts, one character is copied and the scan moves on.
   */
  function SpaceEveryFour(s: string): string
    decreases |s|
  {
    if |s| >= 4 && forall k :: 0 <= k < 4 ==> !IsLineTerminator(s[k]) then
      s[..4] + " " + SpaceEveryFour(s[4..])
    else if s == [] then []
    else [s[0]] + SpaceEveryFour(s[1..])
  }

  /** `formatSecretForDisplay`: spaced every four characters, trimmed, upper-cased. */
  function FormatSecretForDisplay(secret: string): string {
    ToUpper(Trim(SpaceEveryFour(secret)))
  }

  /** A secret written as blocks of four separated by single spaces, the last block holding the rest. */
  function Blocks(s: string): (r: string)
    decreases |s|
  {
    if |s| <= 4 then s else s[..4] + " " + Blocks(s[4..])
  }

  lemma {:induction false} ShortRunCopied(s: string)
    requires |s| < 4
    ensures SpaceEveryFour(s) == s
  {
    if s != [] {
      ShortRunCopied(s[1..]);
    }
  }

  /** On a whitespace-free secret the replacement yields the blocks, plus one trailing space when the length is a non-zero multiple of four. */
  lemma {:induction false} SpaceEveryFourBlocks(s: string)
    requires NoSpace(s)
    ensures SpaceEveryFour(s) == Blocks(s) + (if |s| > 0 && |s| % 4 == 0 then " " else "")
    decreases |s|
  {
    if |s| < 4 {
      ShortRunCopied(s);
    } else {
      assert forall k :: 0 <= k < 4 ==> !IsLineTerminator(s[k]) by {
        assert forall k :: 0 <= k < 4 ==> !IsSpace(s[k]);
      }
      if |s| == 4 {
        assert s[4..] == [];
        assert s[..4] == s;
      } else {
        SpaceEveryFourBlocks(s[4..]);
        assert (s[..4] + " " + Blocks(s[4..])) + (if |s| % 4 == 0 then " " else "")
            == s[..4] + " " + (Blocks(s[4..]) + (if |s[4..]| % 4 == 0 then " " else ""));
      }
    }
  }

  /** Spaces stand exactly at every fifth position and nowhere else; every other character is the secret's. */
  predicate Spaced(r: string) {
    forall i :: 0 <= i < |r| ==> (if i % 5 == 4 then r[i] == ' ' else !IsSpace(r[i]))
  }

  lemma {:induction false} BlocksShape(s: string)
    requires NoSpace(s)
    ensures Spaced(Blocks(s))
    ensures |s| > 0 ==> |Blocks(s)| == |s| + (|s| - 1) / 4
    ensures |s| > 0 ==> !IsSpace(Blocks(s)[0]) && !IsSpace(Blocks(s)[|Blocks(s)| - 1])
    decreases |s|
  {
    if |s| > 4 {
      BlocksShape(s[4..]);
      var b := Blocks(s);
      var rest := Blocks(s[4..]);
      assert b == s[..4] + " " + rest;
      forall i | 0 <= i < |b| ensures if i % 5 == 4 then b[i] == ' ' else !IsSpace(b[i]) {
        if i >= 5 {
          assert b[i] == rest[i - 5];
          assert (i - 5) % 5 == i % 5;
        }
      }
    }
  }

  /** Removing the spaces gives the secret back. */
  lemma {:induction false} BlocksDropSpaces(s: string)
    requires NoSpace(s)
    ensures RemoveSpaces(Blocks(s)) == s
    decreases |s|
  {
    if |s| <= 4 {
      RemoveSpacesOfNoSpace(s);
    } else {
      BlocksDropSpaces(s[4..]);
      RemoveSpacesAppend(s[..4] + " ", Blocks(s[4..]));
      RemoveSpacesAppend(s[..4], " ");
      RemoveSpacesOfNoSpace(s[..4]);
      assert s[..4] + s[4..] == s;
    }
  }

  lemma TrimBlocks(s: string)
    requires NoSpace(s)
    ensures Trim(SpaceEveryFour(s)) == Blocks(s)
  {
    SpaceEveryFourBlocks(s);
    BlocksShape(s);
    var b := Blocks(s);
    if |s| > 0 && |s| % 4 == 0 {
      TrimTrailingSpace(b);
    } else {
      TrimOfTrimmed(b);
    }
  }

  lemma TrimTrailingSpace(t: string)
    requires t != [] && !IsSpace(t[0]) && !IsSpace(t[|t| - 1])
    ensures Trim(t + " ") == t
  {
    var u := t + " ";
    assert TrimStart(u) == u;
    assert u[..|u| - 1] == t;
    assert TrimEnd(u) == TrimEnd(t);
  }

  /**
   * For a whitespace-free secret the display is the upper-cased secret in blocks of
   * four: spaces exactly at every fifth position, none at either end, the last
   * block one to four characters long, and `n + ceil(n/4) - 1` characters in all.
   */
  lemma DisplayShape(secret: string)
    requires NoSpace(secret)
    ensures var r := FormatSecretForDisplay(secret);
      && Spaced(r)
      && (secret == [] ==> r == [])
      && (secret != [] ==> |r| == |secret| + (|secret| + 3) / 4 - 1 && !IsSpace(r[0]) && !IsSpace(r[|r| - 1]))
  {
    TrimBlocks(secret);
    BlocksShape(secret);
    UpperKeepsSpaced(Blocks(secret));
    assert |secret| > 0 ==> (|secret| + 3) / 4 - 1 == (|secret| - 1) / 4;
  }

  lemma UpperKeepsSpaced(b: string)
    requires Spaced(b)
    ensures Spaced(ToUpper(b))
  {
    var r := ToUpper(b);
    forall i | 0 <= i < |r| ensures if i % 5 == 4 then r[i] == ' ' else !IsSpace(r[i]) {
      if i % 5 == 4 {
        assert b[i] == ' ';
        assert !IsAsciiLower(' ');
      }
    }
  }

  /** Deleting the spaces of the display of a whitespace-free secret gives the upper-cased secret. */
  lemma DisplayDropsToSecret(secret: string)
    requires NoSpace(secret)
    ensures RemoveSpaces(FormatSecretForDisplay(secret)) == ToUpper(secret)
  {
    TrimBlocks(secret);
    BlocksDropSpaces(secret);
    RemoveSpacesUpper(Blocks(secret));
  }

  /**
   * `verifyTwoFactorToken`: false for a missing or empty secret or code without
   * asking the OTP check; otherwise whatever `codeIsValid(code, secret)` says.
   */
  function VerifyTwoFactorToken(codeIsValid: (string, string) -> bool, secret: Option<string>, code: Option<string>): (ok: bool)
    ensures ok <==> secret.Some? && secret.value != "" && code.Some? && code.value != "" && codeIsValid(code.value, secret.value)
  {
    if secret.None? || secret.value == "" || code.None? || code.value == "" then false
    else codeIsValid(code.value, secret.value)
  }
}
