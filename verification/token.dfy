/** Token extraction in handleWs (wsproxy/handle.go:95-105, and the same lines
    in the root wsproxy.go): the form value has its spaces turned back into
    '+', is trimmed, and is then optionally cut at the -fsplit marker. */
module Token {
  import opened Wrappers
  import opened Strs
  import opened Config

  /** `t` is `v` with spaces turned into '+', less `a` leading and some
      trailing characters that are white space other than ' '. */
  ghost predicate NormalizedAt(v: string, t: string, a: int) {
    && 0 <= a <= |v| - |t|
    && (forall i :: 0 <= i < |t| ==> t[i] == (if v[a + i] == ' ' then '+' else v[a + i]))
    && (forall i :: 0 <= i < a ==> IsSpace(v[i]) && v[i] != ' ')
    && (forall i :: a + |t| <= i < |v| ==> IsSpace(v[i]) && v[i] != ' ')
  }

  /** `plus` is `v` with every ' ' turned into '+'. */
  predicate SpacesReplaced(v: string, plus: string) {
    |plus| == |v| && forall i :: 0 <= i < |v| ==> plus[i] == (if v[i] == ' ' then '+' else v[i])
  }

  /** strings.TrimSpace(strings.Replace(v, " ", "+", -1)): no space survives,
      every other character of the kept slice is unchanged, and only white
      space other than ' ' is dropped, from the two ends. */
  function Normalize(v: string): (t: string)
    ensures ' ' !in t
    ensures exists a :: NormalizedAt(v, t, a)
    ensures |t| > 0 ==> !IsSpace(t[0]) && !IsSpace(t[|t| - 1])
  {
    var plus := ReplaceChar(v, ' ', '+');
    var t := TrimSpace(plus);
    NormalizeWitness(v, plus, t);
    t
  }

  lemma NormalizeWitness(v: string, plus: string, t: string)
    requires plus == ReplaceChar(v, ' ', '+') && t == TrimSpace(plus)
    ensures ' ' !in t
    ensures exists a :: NormalizedAt(v, t, a)
  {
    var a :| TrimmedAt(plus, t, a);
    NormalizedFrom(v, plus, t, a);
  }

  /** A slice of the replaced text cut out between two white-space runs
      satisfies NormalizedAt. */
  lemma NormalizedFrom(v: string, plus: string, t: string, a: nat)
    requires SpacesReplaced(v, plus)
    requires TrimmedAt(plus, t, a)
    ensures ' ' !in t
    ensures exists a' :: NormalizedAt(v, t, a')
  {
    KeptSlice(v, plus, t, a);
    DroppedHead(v, plus, a);
    DroppedTail(v, plus, a + |t|);
    assert NormalizedAt(v, t, a);
  }

  /** The kept slice holds the replaced characters, so no ' ' in it. */
  lemma KeptSlice(v: string, plus: string, t: string, a: nat)
    requires SpacesReplaced(v, plus)
    requires a <= |plus| - |t| && t == plus[a..a + |t|]
    ensures forall i :: 0 <= i < |t| ==> t[i] == (if v[a + i] == ' ' then '+' else v[a + i])
    ensures ' ' !in t
  {
    forall i | 0 <= i < |t|
      ensures t[i] == (if v[a + i] == ' ' then '+' else v[a + i]) && t[i] != ' '
    {
      assert t[i] == plus[a + i];
    }
  }

  /** What TrimSpace drops at the front was white space, but not ' '. */
  lemma DroppedHead(v: string, plus: string, a: nat)
    requires SpacesReplaced(v, plus)
    requires SpaceBetween(plus, 0, a)
    ensures forall i :: 0 <= i < a ==> IsSpace(v[i]) && v[i] != ' '
  {
  }

  /** What TrimSpace drops at the back was white space, but not ' '. */
  lemma DroppedTail(v: string, plus: string, b: nat)
    requires SpacesReplaced(v, plus)
    requires SpaceBetween(plus, b, |plus|)
    ensures forall i :: b <= i < |v| ==> IsSpace(v[i]) && v[i] != ' '
  {
  }

  /** The Go runtime panic "index out of range" that `Split(...)[cfgRfSplit]`
      raises when the index is not a valid piece number. */
  datatype SplitPanic = IndexOutOfRange(index: int, pieces: nat)

  /** The token handed to decryption: with a split rule and the marker
      present, the piece numbered `rule.index` of the token split on the
      marker; otherwise the normalised token itself. */
  function Extract(split: Option<SplitRule>, formValue: string): (r: Result<string, SplitPanic>)
    ensures split.None? ==> r == Ok(Normalize(formValue))
    ensures split.Some? && !Contains(Normalize(formValue), split.value.marker) ==> r == Ok(Normalize(formValue))
    ensures split.Some? && Contains(Normalize(formValue), split.value.marker) ==>
              var pieces := Split(Normalize(formValue), split.value.marker);
              && (r.Ok? <==> 0 <= split.value.index < |pieces|)
              && (r.Ok? ==> r.value == pieces[split.value.index])
              && (r.Err? ==> r.error == IndexOutOfRange(split.value.index, |pieces|))
    ensures r.Ok? && split.Some? && |split.value.marker| > 0 ==> !Contains(r.value, split.value.marker)
  {
    var token := Normalize(formValue);
    match split
    case None => Ok(token)
    case Some(rule) =>
      if Contains(token, rule.marker) then
        var pieces := Split(token, rule.marker);
        if 0 <= rule.index < |pieces| then Ok(pieces[rule.index])
        else Err(IndexOutOfRange(rule.index, |pieces|))
      else Ok(token)
  }

  /** With a non-empty marker present in the token there are at least two
      pieces, so index 0 and index 1 never panic, and a negative index always
      does. */
  lemma MarkerPresentPieces(token: string, marker: string)
    requires |marker| > 0 && Contains(token, marker)
    ensures |Split(token, marker)| >= 2
  {
    var i := Index(token, marker).value;
    BeforeFirstOccurrence(token, marker, i);
    SplitAtFirst(token, marker, i);
  }

  /** The extracted piece is a piece of the token: the pieces joined by the
      marker give the token back. */
  lemma ExtractedIsPiece(rule: SplitRule, formValue: string)
    requires Contains(Normalize(formValue), rule.marker)
    requires Extract(Some(rule), formValue).Ok?
    ensures var pieces := Split(Normalize(formValue), rule.marker);
            && Join(pieces, rule.marker) == Normalize(formValue)
            && 0 <= rule.index < |pieces|
            && pieces[rule.index] == Extract(Some(rule), formValue).value
  {
  }
}
