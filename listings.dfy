/** What one listing's detail panel gives, and the reads both entry points make from it
    before the website is looked at. */
module Listings {
  import opened Wrappers
  import opened Text
  import opened Coordinates
  import opened Records

  /** One listing, as the browser would answer for it: whether `listing.click()` succeeds;
      the text of each field lookup, `None` where `inner_text()` raises; the panel's URL;
      whether both coordinate fields convert with `float()`; and whether the IP probe on the
      local browser succeeds (used by `escrape.py` only). */
  datatype Listing = Listing(
    clicks: bool,
    name: Option<string>,
    address: Option<string>,
    website: Option<string>,
    phone: Option<string>,
    placeUrl: string,
    coordinatesAreFloats: bool,
    probeOk: bool)

  /** The record after the field reads, and whether all of them succeeded. */
  datatype Details = Details(record: Business, complete: bool)

  /** The reads after the click: name, address, website and phone in that order, then the
      coordinates from the panel's URL. The reads share one `try`, so the first that raises
      leaves it and every later field unset. */
  function ReadDetails(l: Listing): Details
  {
    if l.name.None? then Details(NoBusiness, false)
    else
      var withName := NoBusiness.(name := l.name);
      if l.address.None? then Details(withName, false)
      else
        var withAddress := withName.(address := l.address);
        if l.website.None? then Details(withAddress, false)
        else
          var withWebsite := withAddress.(website := l.website);
          if l.phone.None? then Details(withWebsite, false)
          else
            var withPhone := withWebsite.(phoneNumber := l.phone);
            match CoordinateFields(l.placeUrl)
            case None => Details(withPhone, false)
            case Some((lat, lon)) =>
              if !l.coordinatesAreFloats then Details(withPhone, false)
              else Details(withPhone.(latitude := Some(lat), longitude := Some(lon)), true)
  }

  /** Each field is set exactly when every lookup before it and its own succeeded, and then
      holds what the lookup returned; the coordinates are set exactly when all reads succeed. */
  lemma ReadDetailsFacts(l: Listing)
    ensures ReadDetails(l).record.email == None
    ensures ReadDetails(l).record.name == l.name
    ensures l.name.Some? ==> ReadDetails(l).record.address == l.address
    ensures ReadDetails(l).record.address.Some? ==> l.name.Some? && ReadDetails(l).record.address == l.address
    ensures l.name.Some? && l.address.Some? ==> ReadDetails(l).record.website == l.website
    ensures ReadDetails(l).record.website.Some? ==> l.address.Some? && ReadDetails(l).record.website == l.website
    ensures l.name.Some? && l.address.Some? && l.website.Some? ==> ReadDetails(l).record.phoneNumber == l.phone
    ensures ReadDetails(l).record.phoneNumber.Some? ==> l.website.Some? && ReadDetails(l).record.phoneNumber == l.phone
    ensures ReadDetails(l).record.latitude.Some? <==> ReadDetails(l).complete
    ensures ReadDetails(l).complete <==>
              l.name.Some? && l.address.Some? && l.website.Some? && l.phone.Some?
              && CoordinateFields(l.placeUrl).Some? && l.coordinatesAreFloats
    ensures ReadDetails(l).complete ==>
              ReadDetails(l).record.latitude == Some(CoordinateFields(l.placeUrl).value.0)
              && ReadDetails(l).record.longitude == Some(CoordinateFields(l.placeUrl).value.1)
  {
  }

  /** The lookups are not guarded one by one: a name lookup that raises leaves every field
      unset. */
  lemma NameFailureLeavesAllUnset(l: Listing)
    requires l.name.None?
    ensures ReadDetails(l) == Details(NoBusiness, false)
  {
  }
}
