/** The certification carousel: a ring of `n` cards with one active index, moved by
    the arrows, the dots and the autoplay tick, and the placement of every card
    relative to the active one. */
module Carousel {
  import opened Js

  datatype Certification = Certification(
    id: int, title: string, issuer: string, date: string, image: string, url: string, unlocked: bool)

  /** The carousel's own catalog: three earned certifications and a locked
      placeholder. */
  function Catalog(): seq<Certification> {
    seq(4, CatalogEntry)
  }

  /** Row `i` of the catalog: the texts, and whether it is unlocked. */
  function CatalogEntry(i: int): Certification
    requires 0 <= i < 4
  {
    var t := CatalogText(i);
    Certification(i + 1, t.0, t.1, t.2, t.3, t.4, [true, true, true, false][i])
  }

  /** Title, issuer, date, image and certificate link of row `i`. */
  function CatalogText(i: int): (string, string, string, string, string) {
    if i == 0 then
      ("CyberOps Associate Networking Academy", "Cisco", "Noviembre 2024",
        "https://images.credly.com/images/53f37f83-04a1-4935-9b1e-21a99cc6e1b2/CyberOpsAssoc.png",
        "https://www.credly.com/badges/075a9412-ef1b-4553-92c6-d7da71fe7b53")
    else if i == 1 then
      ("CCNA: Introduction to Networks", "Cisco", "Febrero 2025",
        "https://images.credly.com/images/70d71df5-f3dc-4380-9b9d-f22513a70417/twitter_thumb_201604_CCNAITN__1_.png",
        "https://www.credly.com/badges/0ecd8854-10a1-4b12-932c-cba431c63dc0")
    else if i == 2 then
      ("AWS Certified Cloud Practitioner", "Amazon Web Services", "Abril 2025",
        "https://d1.awsstatic.com/training-and-certification/certification-badges/AWS-Certified-Cloud-Practitioner_badge.634f8a21af2e0e956ed8905a72366146ba22b74c.png",
        "https://www.credly.com/badges/b28a31c4-1e5d-4b80-b858-f5a0d4384616")
    else
      ("Próxima Certificación", "Por Desbloquear", "Futuro", "/placeholder.svg?height=200&width=200", "#")
  }

  /** Euclidean division by a positive divisor has a unique quotient and remainder. */
  lemma DivModUnique(x: int, n: int, q: int, r: int)
    requires n > 0 && 0 <= r < n && x == q * n + r
    ensures x / n == q && x % n == r
  {
    var q', r' := x / n, x % n;
    assert x == q' * n + r';
    assert (q - q') * n == r' - r;
    if q' < q {
      MulAtLeast(q - q', n);
    } else if q' > q {
      MulAtLeast(q' - q, n);
    }
  }

  lemma {:induction false} MulAtLeast(d: int, n: int)
    requires d >= 1 && n > 0
    ensures d * n >= n
    decreases d
  {
    if d > 1 {
      MulAtLeast(d - 1, n);
      assert d * n == (d - 1) * n + n;
    }
  }

  /** `(prev + 1) % certifications.length`, used by the right arrow and the tick. */
  function Next(i: int, n: int): (r: int)
    requires 0 <= i < n
    ensures 0 <= r < n
  {
    Rem(i + 1, n)
  }

  /** `prev === 0 ? certifications.length - 1 : prev - 1`, used by the left arrow. */
  function Prev(i: int, n: int): (r: int)
    requires 0 <= i < n
    ensures 0 <= r < n
  {
    if i == 0 then n - 1 else i - 1
  }

  /** The right arrow wraps from the last card to the first and otherwise steps by one. */
  lemma NextWraps(i: int, n: int)
    requires 0 <= i < n
    ensures Next(i, n) == if i == n - 1 then 0 else i + 1
  {
    RemNonNegative(i + 1, n);
  }

  /** The two arrows undo each other. */
  lemma PrevNext(i: int, n: int)
    requires 0 <= i < n
    ensures Prev(Next(i, n), n) == i && Next(Prev(i, n), n) == i
  {
    NextWraps(i, n);
    NextWraps(Prev(i, n), n);
  }

  /** The active index after `k` steps to the right. */
  function NextTimes(i: int, n: int, k: nat): (r: int)
    requires 0 <= i < n
    ensures 0 <= r < n
    decreases k
  {
    if k == 0 then i else NextTimes(Next(i, n), n, k - 1)
  }

  /** `k` steps to the right advance the index by `k` around the ring. */
  lemma {:induction false} NextTimesIsAddition(i: int, n: int, k: nat)
    requires 0 <= i < n
    ensures NextTimes(i, n, k) == (i + k) % n
    decreases k
  {
    if k > 0 {
      NextWraps(i, n);
      NextTimesIsAddition(Next(i, n), n, k - 1);
      if i == n - 1 {
        ModShift(k - 1, n);
        assert i + k == (k - 1) + n;
      }
    }
  }

  /** Adding the modulus does not change the remainder. */
  lemma ModShift(y: int, n: int)
    requires y >= 0 && n > 0
    ensures (y + n) % n == y % n
  {
    var q, r := y / n, y % n;
    assert y == q * n + r;
    assert y + n == (q + 1) * n + r;
    DivModUnique(y + n, n, q + 1, r);
  }

  /** After one full turn, `n` steps, the same card is active again. */
  lemma FullTurn(i: int, n: int)
    requires 0 <= i < n
    ensures NextTimes(i, n, n) == i
  {
    NextTimesIsAddition(i, n, n);
    DivModUnique(i + n, n, 1, i);
  }

  /** `(index - activeIndex + certifications.length) % certifications.length`: how many
      steps to the right `index` lies from the active card. */
  function Diff(index: int, active: int, n: int): (d: int)
    requires 0 <= index < n && 0 <= active < n
    ensures 0 <= d < n
  {
    Rem(index - active + n, n)
  }

  /** The step count of `Diff` is the forward distance around the ring. */
  lemma DiffIsDistance(index: int, active: int, n: int)
    requires 0 <= index < n && 0 <= active < n
    ensures Diff(index, active, n) == if index >= active then index - active else index - active + n
  {
    RemNonNegative(index - active + n, n);
    if index >= active {
      DivModUnique(index - active + n, n, 1, index - active);
    } else {
      DivModUnique(index - active + n, n, 0, index - active + n);
    }
  }

  datatype Position = Active | Adjacent | Distant

  /** `getPositionClass(index)`. */
  function PositionClass(index: int, active: int, n: int): Position
    requires 0 <= index < n && 0 <= active < n
  {
    var diff := Diff(index, active, n);
    if diff == 0 then Active
    else if diff == 1 || diff == n - 1 then Adjacent
    else Distant
  }

  /** Exactly one card is active: the one at `activeIndex`. */
  lemma ActiveExactly(index: int, active: int, n: int)
    requires 0 <= index < n && 0 <= active < n
    ensures PositionClass(index, active, n) == Active <==> index == active
  {
    DiffIsDistance(index, active, n);
  }

  /** The adjacent cards are the active card's two ring neighbours. */
  lemma AdjacentAreNeighbours(index: int, active: int, n: int)
    requires 0 <= index < n && 0 <= active < n
    ensures PositionClass(index, active, n) == Adjacent <==>
      index != active && (index == Next(active, n) || index == Prev(active, n))
  {
    DiffIsDistance(index, active, n);
    NextWraps(active, n);
  }

  /** The horizontal placement of a card: centred, or shifted by a percentage of its
      width (negative is to the left). */
  datatype Offset = Centre | Shift(percent: int)

  /** The `x` animation target. `diff > certifications.length / 2` divides in floating
      point, which for integers is `2 * diff > n`. */
  function XOffset(index: int, active: int, n: int): Offset
    requires 0 <= index < n && 0 <= active < n
  {
    var position := PositionClass(index, active, n);
    var diff := Diff(index, active, n);
    if position == Active then Centre
    else if position == Adjacent && diff == 1 then Shift(30)
    else if position == Adjacent then Shift(-30)
    else if 2 * diff > n then Shift(-50)
    else Shift(50)
  }

  /** Only the active card is centred; neighbours are shifted by 30% and all other
      cards by 50%; a card is drawn to the right exactly when it lies at most half
      the ring ahead of the active card. */
  lemma OffsetPlacement(index: int, active: int, n: int)
    requires 0 <= index < n && 0 <= active < n
    ensures XOffset(index, active, n).Centre? <==> index == active
    ensures var o := XOffset(index, active, n);
      o.Shift? ==>
        && (o.percent == 30 || o.percent == -30 <==> PositionClass(index, active, n) == Adjacent)
        && (o.percent == 50 || o.percent == -50 <==> PositionClass(index, active, n) == Distant)
        && (o.percent > 0 <==> 2 * Diff(index, active, n) <= n)
  {
    ActiveExactly(index, active, n);
  }

  /** The right neighbour goes to the right and, on a ring of three or more, the left
      neighbour goes to the left. */
  lemma NeighbourSides(active: int, n: int)
    requires 0 <= active < n && n >= 2
    ensures XOffset(Next(active, n), active, n) == Shift(30)
    ensures n >= 3 ==> XOffset(Prev(active, n), active, n) == Shift(-30)
  {
    NextWraps(active, n);
    DiffIsDistance(Next(active, n), active, n);
    DiffIsDistance(Prev(active, n), active, n);
  }

  /** The stacking order: `zIndex` 30, 20 or 10. */
  function ZIndex(p: Position): int {
    match p
    case Active => 30
    case Adjacent => 20
    case Distant => 10
  }

  /** The active card is drawn above every other card. */
  lemma ActiveOnTop(index: int, active: int, n: int)
    requires 0 <= index < n && 0 <= active < n && index != active
    ensures ZIndex(PositionClass(active, active, n)) > ZIndex(PositionClass(index, active, n))
  {
    ActiveExactly(index, active, n);
    ActiveExactly(active, active, n);
  }

  /** The dot row: one dot per card, the current one marked. */
  function Dots(active: int, n: nat): (dots: seq<bool>)
    ensures |dots| == n
    ensures forall i :: 0 <= i < n ==> (dots[i] <==> i == active)
  {
    seq(n, i => i == active)
  }

  /** The message under the carousel. */
  function Footer(c: Certification): string {
    if c.unlocked then "Logro Desbloqueado" else "Completa más cursos para desbloquear este logro"
  }

  /** The footer says "Logro Desbloqueado" exactly when the active certification is
      unlocked. */
  lemma FooterUnlocked(c: Certification)
    ensures Footer(c) == "Logro Desbloqueado" <==> c.unlocked
  {
    assert |"Logro Desbloqueado"| != |"Completa más cursos para desbloquear este logro"|;
  }

  /** The active card offers its certificate link when unlocked and "Próximamente..."
      otherwise; other cards show neither. */
  datatype Badge = CertificateLink(url: string) | ComingSoon | NoBadge

  function CardBadge(c: Certification, isActive: bool): Badge {
    if isActive && c.unlocked then CertificateLink(c.url)
    else if isActive && !c.unlocked then ComingSoon
    else NoBadge
  }

  /** The active card always has exactly one badge and it agrees with the footer. */
  lemma ActiveBadgeMatchesFooter(c: Certification)
    ensures CardBadge(c, true).CertificateLink? <==> Footer(c) == "Logro Desbloqueado"
    ensures CardBadge(c, true) != NoBadge && CardBadge(c, false) == NoBadge
  {
    FooterUnlocked(c);
  }

  /** Of the catalog's four cards only the last one is locked. */
  lemma CatalogLockedLast()
    ensures |Catalog()| == 4
    ensures forall i :: 0 <= i < 4 ==> (Catalog()[i].unlocked <==> i < 3)
  {
    forall i | 0 <= i < 4
      ensures Catalog()[i].unlocked <==> i < 3
    {
      assert Catalog()[i] == CatalogEntry(i);
    }
  }

  /** A key on the window: the left and right arrows move the carousel. */
  datatype Key = ArrowLeft | ArrowRight | OtherKey

  /** The carousel component: the certifications it shows and the active index. */
  class CertificationCarousel {
    const certifications: seq<Certification>
    var activeIndex: int

    ghost predicate Valid()
      reads this
    {
      |certifications| > 0 && 0 <= activeIndex < |certifications|
    }

    /** The first card is active on first render. */
    constructor ()
      ensures Valid() && certifications == Catalog() && activeIndex == 0
    {
      certifications := Catalog();
      activeIndex := 0;
    }

    /** `handlePrev`. */
    method HandlePrev()
      requires Valid()
      modifies this
      ensures Valid() && activeIndex == Prev(old(activeIndex), |certifications|)
    {
      activeIndex := if activeIndex == 0 then |certifications| - 1 else activeIndex - 1;
    }

    /** `handleNext`, and also the autoplay tick. */
    method HandleNext()
      requires Valid()
      modifies this
      ensures Valid() && activeIndex == Next(old(activeIndex), |certifications|)
    {
      activeIndex := Rem(activeIndex + 1, |certifications|);
    }

    /** `handleDotClick(index)`: the dots only pass indices of existing cards. */
    method HandleDotClick(index: int)
      requires Valid() && 0 <= index < |certifications|
      modifies this
      ensures Valid() && activeIndex == index
      ensures Dots(activeIndex, |certifications|)[index]
    {
      activeIndex := index;
    }

    /** The window key listener. */
    method HandleKey(key: Key)
      requires Valid()
      modifies this
      ensures Valid()
      ensures activeIndex == match key
        case ArrowLeft => Prev(old(activeIndex), |certifications|)
        case ArrowRight => Next(old(activeIndex), |certifications|)
        case OtherKey => old(activeIndex)
    {
      if key == ArrowLeft {
        HandlePrev();
      } else if key == ArrowRight {
        HandleNext();
      }
    }

    /** The footer message for the active certification. */
    function FooterMessage(): string
      reads this
      requires Valid()
    {
      Footer(certifications[activeIndex])
    }
  }
}
