/** Removing a trailing method call from an expression (codegen/generate.ts, stripCallSuffix). */
module CallSuffix {
  import opened Prelude

  function Weight(c: char): int {
    if c == '(' then 1 else if c == ')' then -1 else 0
  }

  /** How many parentheses of s are open at its end; strings are not looked at. */
  function Depth(s: string): int {
    if s == "" then 0 else Depth(s[..|s| - 1]) + Weight(s[|s| - 1])
  }

  lemma {:induction false} DepthConcat(a: string, b: string)
    ensures Depth(a + b) == Depth(a) + Depth(b)
    decreases |b|
  {
    if b == "" {
      assert a + b == a;
    } else {
      assert (a + b)[..|a + b| - 1] == a + b[..|b| - 1];
      DepthConcat(a, b[..|b| - 1]);
    }
  }

  lemma NoDepth()
    ensures Depth("") == 0
  {
  }

  lemma DepthChar(c: char)
    ensures Depth([c]) == Weight(c)
  {
    assert [c][..0] == "";
  }

  lemma DepthSplit(s: string, i: nat, j: nat, k: nat)
    requires i <= j <= k <= |s|
    ensures Depth(s[i..k]) == Depth(s[i..j]) + Depth(s[j..k])
  {
    assert s[i..k] == s[i..j] + s[j..k];
    DepthConcat(s[i..j], s[j..k]);
  }

  lemma DepthNext(s: string, i: nat, j: nat)
    requires i <= j < |s|
    ensures Depth(s[i..j + 1]) == Depth(s[i..j]) + Weight(s[j]) && Depth(s[j..]) == Weight(s[j]) + Depth(s[j + 1..])
  {
    DepthSplit(s, i, j, j + 1);
    DepthSplit(s, j, j + 1, |s|);
    assert s[j..j + 1] == [s[j]] && s[j..|s|] == s[j..] && s[j + 1..|s|] == s[j + 1..];
    DepthChar(s[j]);
  }

  lemma DepthTail(s: string, i: nat)
    requires i < |s|
    ensures Depth(s[i..]) == Weight(s[i]) + Depth(s[i + 1..])
  {
    DepthNext(s, i, i);
  }

  /** Position j holds the first closing parenthesis at which the text from p on is balanced. */
  ghost predicate Ends(s: string, p: nat, j: nat) {
    && p <= j < |s| && s[j] == ')' && Depth(s[p..j + 1]) == 0
    && forall k :: p <= k < j && s[k] == ')' ==> Depth(s[p..k + 1]) != 0
  }

  /** The call written at `start` is the needle, and its parenthesis is closed by the last character. */
  ghost predicate Strips(body: string, needle: string, start: nat) {
    && needle != "" && start + |needle| <= |body| && body[start..start + |needle|] == needle
    && Ends(body, start + |needle| - 1, |body| - 1)
  }

  predicate NoParen(c: char) { c != '(' && c != ')' }

  predicate IsMethodName(name: string) {
    forall i :: 0 <= i < |name| ==> NoParen(name[i])
  }

  function Needle(name: string): string {
    "." + name + "("
  }

  /** String.prototype.startsWith, whose position is cut off at zero. */
  predicate StartsWith(body: string, needle: string, position: int) {
    var p := if position < 0 then 0 else position;
    p + |needle| <= |body| && body[p..p + |needle|] == needle
  }

  /** String.prototype.slice(0, end), whose end counts from the back when it is negative. */
  function SliceTo(body: string, end: int): string {
    var e := if end < 0 then |body| + end else end;
    if e <= 0 then "" else if e >= |body| then body else body[..e]
  }

  /** The test of one round: the needle is found to end at position i, and the walk from there ends at the last character. */
  ghost predicate FitsAt(body: string, needle: string, i: int) {
    0 <= i < |body| && StartsWith(body, needle, i - |needle| + 1) && Ends(body, i, |body| - 1)
  }

  /** The right-most position that fits decides, whatever the name. */
  ghost predicate IsSliced(body: string, needle: string, r: string) {
    && (forall i: nat :: FitsAt(body, needle, i) && NoneBehind(body, needle, i) ==> r == SliceTo(body, i - |needle| + 1))
    && (NoneBehind(body, needle, -1) ==> r == body)
  }

  /** No position behind i fits. */
  ghost predicate NoneBehind(body: string, needle: string, i: int) {
    forall k :: FitsAt(body, needle, k) ==> k <= i
  }

  // ---------- the scan ----------

  method MatchFrom(body: string, p: nat) returns (j: nat)
    requires p < |body|
    ensures p <= j <= |body|
    ensures j < |body| ==> Ends(body, p, j)
    ensures j == |body| ==> forall k: nat :: !Ends(body, p, k)
  {
    hide Depth, Weight;
    var d := 0;
    j := p;
    assert body[p..p] == "";
    NoDepth();
    while j < |body|
      invariant p <= j <= |body| && d == Depth(body[p..j])
      invariant forall k :: p <= k < j && body[k] == ')' ==> Depth(body[p..k + 1]) != 0
    {
      DepthNext(body, p, j);
      Weights();
      if body[j] == '(' {
        d := d + 1;
      } else if body[j] == ')' {
        d := d - 1;
        if d == 0 {
          return;
        }
      }
      j := j + 1;
    }
  }

  lemma Weights()
    ensures Weight('(') == 1 && Weight(')') == -1 && forall c :: c != '(' && c != ')' ==> Weight(c) == 0
  {
  }

  lemma {:induction false} OpenUntilEnd(s: string, p: nat, j: nat, k: nat)
    requires Ends(s, p, j) && s[p] == '(' && p < k <= j
    ensures Depth(s[p..k]) > 0
    decreases k
  {
    hide Depth;
    DepthNext(s, p, k - 1);
    if k == p + 1 {
      assert s[p..p] == "";
      NoDepth();
      Weights();
    } else {
      OpenUntilEnd(s, p, j, k - 1);
      assert s[k - 1] == ')' ==> Depth(s[p..k - 1 + 1]) != 0;
    }
  }

  lemma EndsOnce(s: string, p: nat, q: nat, j: nat)
    requires Ends(s, p, j) && Ends(s, q, j) && s[p] == '(' && s[q] == '(' && p <= q
    ensures p == q
  {
    hide Depth;
    if p < q {
      OpenUntilEnd(s, p, j, q);
      DepthSplit(s, p, q, j + 1);
    }
  }

  /** At most one call can be stripped. */
  lemma StripsOnce(body: string, needle: string, a: nat, b: nat)
    requires needle != "" && needle[|needle| - 1] == '(' && Strips(body, needle, a) && Strips(body, needle, b)
    ensures a == b
  {
    hide Ends;
    var p, q, n := a + |needle| - 1, b + |needle| - 1, |needle| - 1;
    assert body[a..a + |needle|][n] == body[p] && body[b..b + |needle|][n] == body[q];
    if p <= q { EndsOnce(body, p, q, |body| - 1); } else { EndsOnce(body, q, p, |body| - 1); }
  }

  lemma {:induction false} Flat(s: string, i: nat, j: nat)
    requires i <= j <= |s| && forall k :: i <= k < j ==> NoParen(s[k])
    ensures Depth(s[i..j]) == 0
    decreases j
  {
    if i < j {
      Flat(s, i, j - 1);
      DepthNext(s, i, j - 1);
    } else {
      assert s[i..j] == "";
    }
  }

  /** Walking from inside the needle, before its parenthesis, ends where walking from the parenthesis ends. */
  lemma EndsLater(s: string, i: nat, p: nat, j: nat)
    requires i <= p <= j && Ends(s, i, j) && forall k :: i <= k < p ==> NoParen(s[k])
    ensures Ends(s, p, j)
  {
    hide Depth;
    Flat(s, i, p);
    forall k | p <= k <= j && s[k] == ')' ensures Depth(s[i..k + 1]) == Depth(s[p..k + 1]) { DepthSplit(s, i, p, k + 1); }
  }

  /** A needle cut off at the front of the body is never the one that strips: the whole one was tried before. */
  lemma CutNeedleFails(body: string, name: string, i: nat, j: nat)
    requires IsMethodName(name) && i < |Needle(name)| - 1 && StartsWith(body, Needle(name), 0) && Ends(body, i, j)
    ensures j == |body| - 1 ==> Strips(body, Needle(name), 0)
  {
    hide Ends;
    var n := Needle(name);
    assert body[0..|n|] == n && n[|n| - 1] == '(';
    forall k | 0 <= k < |n| - 1 ensures NoParen(body[k]) {
      assert n[k] == body[k] && (k > 0 ==> n[k] == name[k - 1]);
    }
    assert body[|n| - 1] == n[|n| - 1];
    if j == |body| - 1 {
      EndsAt(body, i, j);
      EndsLater(body, i, |n| - 1, j);
    }
  }

  lemma EndsAt(s: string, p: nat, j: nat)
    requires Ends(s, p, j)
    ensures p <= j < |s| && s[j] == ')' && Depth(s[p..j + 1]) == 0
  {
  }

  /** Whether position i fits. */
  method Fits(body: string, needle: string, i: nat, depth: int) returns (fits: bool)
    requires i < |body| && depth == -Depth(body[i..])
    ensures fits <==> FitsAt(body, needle, i)
  {
    hide Depth, Ends, StartsWith;
    fits := false;
    WalkBalances(body, i);
    if depth == 0 && StartsWith(body, needle, i - |needle| + 1) {
      var j := MatchFrom(body, i);
      fits := j == |body| - 1;
      if j < |body| { EndsIsFirst(body, i, j, |body| - 1); }
    }
  }

  lemma WalkBalances(body: string, i: nat)
    requires i < |body|
    ensures Ends(body, i, |body| - 1) ==> Depth(body[i..]) == 0
  {
    assert body[i..|body| - 1 + 1] == body[i..];
  }

  lemma EndsIsFirst(s: string, p: nat, j: nat, k: nat)
    requires Ends(s, p, j)
    ensures Ends(s, p, k) ==> k == j
  {
  }

  method StripCallSuffix(body: string, name: string) returns (r: string)
    ensures IsSliced(body, Needle(name), r)
    ensures IsMethodName(name) ==> IsStripped(body, Needle(name), r)
  {
    hide Depth, FitsAt, NoneBehind, SliceTo, Weight, Needle, IsMethodName, IsSliced, IsStripped;
    var needle := Needle(name);
    var depth := 0;
    var i := |body| - 1;
    ScanStarts(body, needle);
    while i >= 0
      invariant -1 <= i < |body| && depth == -Depth(body[i + 1..]) && NoneBehind(body, needle, i)
    {
      DepthTail(body, i);
      Weights();
      if body[i] == ')' {
        depth := depth + 1;
      } else if body[i] == '(' {
        depth := depth - 1;
      }
      var fits := Fits(body, needle, i, depth);
      if fits {
        RightMostSlices(body, needle, i);
        if IsMethodName(name) { WholeNeedle(body, name, i); }
        return SliceTo(body, i - |needle| + 1);
      }
      OneLess(body, needle, i);
      i := i - 1;
    }
    NothingSlices(body, needle);
    if IsMethodName(name) { NothingStrips(body, name); }
    r := body;
  }

  lemma ScanStarts(body: string, needle: string)
    ensures NoneBehind(body, needle, |body| - 1) && Depth(body[|body|..]) == 0
  {
    assert body[|body|..] == "";
  }

  lemma OneLess(body: string, needle: string, i: nat)
    requires NoneBehind(body, needle, i) && !FitsAt(body, needle, i)
    ensures NoneBehind(body, needle, i - 1)
  {
    hide FitsAt;
  }

  lemma RightMostSlices(body: string, needle: string, i: nat)
    requires FitsAt(body, needle, i) && NoneBehind(body, needle, i)
    ensures IsSliced(body, needle, SliceTo(body, i - |needle| + 1))
  {
    hide FitsAt, SliceTo;
  }

  lemma NothingSlices(body: string, needle: string)
    requires NoneBehind(body, needle, -1)
    ensures IsSliced(body, needle, body)
  {
    hide FitsAt, SliceTo;
  }

  // ---------- method names without parentheses ----------

  /** The body without its trailing call, or the body itself if it has none. */
  ghost predicate IsStripped(body: string, needle: string, r: string) {
    && (forall start: nat :: Strips(body, needle, start) ==> r == body[..start])
    && ((forall start: nat :: !Strips(body, needle, start)) ==> r == body)
  }

  /** A call that can be stripped fits at its parenthesis. */
  lemma StripsFits(body: string, needle: string, start: nat)
    requires Strips(body, needle, start)
    ensures FitsAt(body, needle, start + |needle| - 1)
  {
    hide Ends;
  }

  lemma NothingStrips(body: string, name: string)
    requires NoneBehind(body, Needle(name), -1)
    ensures IsStripped(body, Needle(name), body)
  {
    hide Strips, FitsAt;
    forall start: nat ensures !Strips(body, Needle(name), start) {
      if Strips(body, Needle(name), start) { StripsFits(body, Needle(name), start); }
    }
  }

  /** The right-most position that fits is the parenthesis of a whole needle. */
  lemma WholeNeedle(body: string, name: string, i: nat)
    requires IsMethodName(name) && FitsAt(body, Needle(name), i) && NoneBehind(body, Needle(name), i)
    ensures IsStripped(body, Needle(name), SliceTo(body, i - |Needle(name)| + 1))
  {
    hide Ends, IsMethodName, Depth;
    var needle := Needle(name);
    var start := i - |needle| + 1;
    if start < 0 {
      CutNeedleFails(body, name, i, |body| - 1);
      StripsFits(body, needle, 0);
      assert false;
    }
    assert Strips(body, needle, start);
    OnlyStrip(body, name, start);
  }

  lemma OnlyStrip(body: string, name: string, start: nat)
    requires start <= |body| && Strips(body, Needle(name), start)
    ensures IsStripped(body, Needle(name), body[..start])
  {
    hide Strips;
    forall other: nat | Strips(body, Needle(name), other) ensures other == start { StripsOnce(body, Needle(name), start, other); }
  }

  // ---------- what is stripped ----------

  ghost predicate Balanced(s: string) {
    Depth(s) == 0 && forall k :: 0 <= k <= |s| ==> Depth(s[..k]) >= 0
  }

  lemma CallDepth(head: string, needle: string, args: string, k: nat)
    requires needle != "" && needle[|needle| - 1] == '(' && k <= |args|
    ensures var s, p := head + needle + args + ")", |head| + |needle| - 1;
      s[p] == '(' && Depth(s[p..p + 1 + k]) == 1 + Depth(args[..k])
  {
    hide Depth;
    var s, p := head + needle + args + ")", |head| + |needle| - 1;
    assert s[p..p + 1 + k] == "(" + args[..k];
    DepthConcat("(", args[..k]);
    DepthChar('(');
  }

  /** A trailing call is stripped exactly when the parentheses of its arguments, quoted ones included, are balanced. */
  lemma StripsIffBalanced(head: string, name: string, args: string)
    ensures Strips(head + Needle(name) + args + ")", Needle(name), |head|) <==> Balanced(args)
  {
    hide Depth;
    var n := Needle(name);
    var s, p := head + n + args + ")", |head| + |n| - 1;
    var e := |s| - 1;
    assert s[|head|..|head| + |n|] == n && s[e] == ')' && args[..|args|] == args;
    forall k | 0 <= k <= |args| ensures Depth(s[p..p + 1 + k]) == 1 + Depth(args[..k]) { CallDepth(head, n, args, k); }
    DepthNext(s, p, e);
    Weights();
    assert p + 1 + |args| == e && s[p] == '(' by { CallDepth(head, n, args, 0); }
    if Balanced(args) {
      forall k | p <= k < e && s[k] == ')' ensures Depth(s[p..k + 1]) != 0 { assert Depth(args[..k - p]) >= 0; }
    }
    if Strips(s, n, |head|) {
      forall k | 0 <= k <= |args| ensures Depth(args[..k]) >= 0 { OpenUntilEnd(s, p, e, p + 1 + k); }
    }
  }

  /** A closing parenthesis in a string argument keeps the call from being stripped. */
  lemma QuotedParenthesisStays(head: string, name: string)
    ensures !Strips(head + Needle(name) + "\")\"" + ")", Needle(name), |head|)
  {
    var args := "\")\"";
    StripsIffBalanced(head, name, args);
    assert args[..2] == "\"" + ")";
    DepthConcat("\"", ")");
    DepthChar('"');
    DepthChar(')');
  }

  // ---------- spelled out ----------

  /** A slice ends where it says, counted from the back when that is negative, and is empty when that is before the start. */
  lemma SliceEnds(front: string, back: string, n: nat)
    ensures SliceTo(front + back, |front|) == front
    ensures back != "" ==> SliceTo(front + back, -|back|) == front
    ensures SliceTo(back, -|back| - n) == ""
  {
    assert (front + back)[..|front|] == front;
  }

  lemma {:induction false} FlatIsBalanced(args: string, k: nat)
    requires k <= |args| && forall i :: 0 <= i < |args| ==> args[i] != '(' && args[i] != ')'
    ensures Depth(args[..k]) == 0
  {
    if k > 0 {
      FlatIsBalanced(args, k - 1);
      assert args[..k][..k - 1] == args[..k - 1];
    }
  }

  /** A last call whose arguments have no parenthesis is what is stripped, the dot and the name with it. */
  lemma PlainCallStripped(head: string, name: string, args: string, r: string)
    requires forall i :: 0 <= i < |args| ==> args[i] != '(' && args[i] != ')'
    requires IsStripped(head + ("." + name + "(") + args + ")", Needle(name), r)
    ensures r == head
  {
    hide Depth, Strips;
    forall k | 0 <= k <= |args| ensures Depth(args[..k]) == 0 { FlatIsBalanced(args, k); }
    assert args[..|args|] == args;
    StripsIffBalanced(head, name, args);
    var body := head + ("." + name + "(") + args + ")";
    assert Needle(name) == "." + name + "(" && body[..|head|] == head;
  }

  /** So is one whose arguments hold one more call. */
  lemma NestedCallStripped(head: string, name: string, a: string, b: string, c: string, r: string)
    requires forall i :: 0 <= i < |a + b + c| ==> (a + b + c)[i] != '(' && (a + b + c)[i] != ')'
    requires IsStripped(head + ("." + name + "(") + (a + "(" + b + ")" + c) + ")", Needle(name), r)
    ensures r == head
  {
    hide Strips;
    var args := a + "(" + b + ")" + c;
    NestedIsBalanced(a, b, c);
    StripsIffBalanced(head, name, args);
    var body := head + ("." + name + "(") + args + ")";
    assert Needle(name) == "." + name + "(" && body[..|head|] == head;
  }

  lemma NestedIsBalanced(a: string, b: string, c: string)
    requires forall i :: 0 <= i < |a + b + c| ==> (a + b + c)[i] != '(' && (a + b + c)[i] != ')'
    ensures Balanced(a + "(" + b + ")" + c)
  {
    hide Depth;
    var s := a + "(" + b + ")" + c;
    assert forall i :: 0 <= i < |a| ==> a[i] == (a + b + c)[i];
    assert forall i :: 0 <= i < |b| ==> b[i] == (a + b + c)[|a| + i];
    assert forall i :: 0 <= i < |c| ==> c[i] == (a + b + c)[|a| + |b| + i];
    DepthChar('(');
    DepthChar(')');
    Weights();
    FlatIsBalanced(a, |a|);
    FlatIsBalanced(b, |b|);
    FlatIsBalanced(c, |c|);
    assert a[..|a|] == a && b[..|b|] == b && c[..|c|] == c;
    forall k | 0 <= k <= |s| ensures Depth(s[..k]) == if |a| < k <= |a| + 1 + |b| then 1 else 0 {
      if k <= |a| {
        FlatIsBalanced(a, k);
        assert s[..k] == a[..k];
      } else if k <= |a| + 1 + |b| {
        FlatIsBalanced(b, k - |a| - 1);
        assert s[..k] == a + "(" + b[..k - |a| - 1];
        DepthConcat(a, "(");
        DepthConcat(a + "(", b[..k - |a| - 1]);
      } else {
        var n := k - |a| - |b| - 2;
        FlatIsBalanced(c, n);
        assert s[..k] == a + "(" + b + ")" + c[..n];
        DepthConcat(a, "(");
        DepthConcat(a + "(", b);
        DepthConcat(a + "(" + b, ")");
        DepthConcat(a + "(" + b + ")", c[..n]);
      }
    }
    assert s[..|s|] == s;
  }
}
