/** The announcement banner: active announcements minus the ones the visitor has dismissed during
    this visit. */
module AnnouncementBanner {
  import Seqs

  datatype Announcement = Announcement(id: string, title: string, message: string)

  function NotDismissed(dismissed: seq<string>): Announcement -> bool {
    (a: Announcement) => a.id !in dismissed
  }

  /** `announcements.filter(a => !dismissed.includes(a.id))`. */
  function Visible(announcements: seq<Announcement>, dismissed: seq<string>): (r: seq<Announcement>)
    ensures forall a :: a in r <==> a in announcements && a.id !in dismissed
  {
    Seqs.Filter(announcements, NotDismissed(dismissed))
  }

  /** Nothing dismissed: everything shows, in order. Otherwise the visible ones keep their order. */
  lemma VisibleProps(announcements: seq<Announcement>, dismissed: seq<string>)
    ensures Visible(announcements, []) == announcements
    ensures Seqs.IsSubsequence(Visible(announcements, dismissed), announcements)
  {
    Seqs.FilterKeepsAll(announcements, NotDismissed([]));
    Seqs.FilterIsSubsequence(announcements, NotDismissed(dismissed));
  }

  class Banner {
    var dismissed: seq<string>

    constructor ()
      ensures dismissed == []
    {
      dismissed := [];
    }

    /** The close button of announcement `id`: `setDismissed(prev => [...prev, id])`. */
    method Dismiss(id: string)
      modifies this
      ensures dismissed == old(dismissed) + [id]
    {
      dismissed := dismissed + [id];
    }

    function VisibleNow(announcements: seq<Announcement>): seq<Announcement>
      reads this
    {
      Visible(announcements, dismissed)
    }

    /** `visible.length === 0`: the banner renders nothing. */
    predicate RendersNothing(announcements: seq<Announcement>)
      reads this
    {
      |VisibleNow(announcements)| == 0
    }
  }

  /** Dismissing only adds: what was hidden stays hidden, and the dismissed one is hidden for good. */
  lemma DismissHides(announcements: seq<Announcement>, dismissed: seq<string>, id: string)
    ensures forall a :: a in Visible(announcements, dismissed + [id]) ==>
      a in Visible(announcements, dismissed) && a.id != id
    ensures forall a :: a in announcements && a.id == id ==> a !in Visible(announcements, dismissed + [id])
    ensures forall x :: x in dismissed ==> x in dismissed + [id]
  {
  }

  /** Nothing renders exactly when every announcement has been dismissed. */
  lemma RendersNothingIff(announcements: seq<Announcement>, dismissed: seq<string>)
    ensures |Visible(announcements, dismissed)| == 0 <==> forall a :: a in announcements ==> a.id in dismissed
  {
    var v := Visible(announcements, dismissed);
    if |v| != 0 {
      assert v[0] in v;
    }
  }
}
