/** The shirt giveaway of the closures chapter. */
module Inventory {
  import opened RustInts
  import opened Std

  datatype ShirtColor = Red | Blue

  /** How many of `shirts` have colour `c`. */
  function Count(shirts: seq<ShirtColor>, c: ShirtColor): nat
  {
    if shirts == [] then 0
    else Count(shirts[..|shirts| - 1], c) + (if shirts[|shirts| - 1] == c then 1 else 0)
  }

  /** Every shirt is red or blue, so the two counts make up the whole stock. */
  lemma {:induction false} CountsCoverStock(shirts: seq<ShirtColor>)
    ensures Count(shirts, Red) + Count(shirts, Blue) == |shirts|
  {
    if shirts != [] {
      CountsCoverStock(shirts[..|shirts| - 1]);
    }
  }

  /** The colour with strictly more shirts; a tie, and an empty stock, give blue. */
  function MostStockedOf(shirts: seq<ShirtColor>): ShirtColor
  {
    if Count(shirts, Red) > Count(shirts, Blue) then Red else Blue
  }

  datatype Inventory = Inventory(shirts: seq<ShirtColor>) {

    /**
     * `Inventory::most_stocked`: counts both colours in one pass (in `u32`
     * counters, which is why the stock must stay below 2^32 shirts).
     */
    method MostStocked() returns (color: ShirtColor)
      requires |shirts| <= U32_MAX
      ensures color == MostStockedOf(shirts)
      ensures color == Red <==> Count(shirts, Red) > Count(shirts, Blue)
    {
      var redCount: u32 := 0;
      var blueCount: u32 := 0;
      for i := 0 to |shirts|
        invariant redCount as int == Count(shirts[..i], Red)
        invariant blueCount as int == Count(shirts[..i], Blue)
      {
        assert shirts[..i + 1][..i] == shirts[..i];
        CountsCoverStock(shirts[..i]);
        match shirts[i]
        case Red => redCount := redCount + 1;
        case Blue => blueCount := blueCount + 1;
      }
      assert shirts[..|shirts|] == shirts;
      if redCount > blueCount {
        color := Red;
      } else {
        color := Blue;
      }
    }

    /**
     * `Inventory::giveaway`: the user's preference when there is one, and
     * otherwise the most stocked colour, which is only counted when needed.
     */
    method Giveaway(userPref: Option<ShirtColor>) returns (color: ShirtColor)
      requires |shirts| <= U32_MAX
      ensures userPref.Some? ==> color == userPref.value
      ensures userPref.None? ==> color == MostStockedOf(shirts)
    {
      match userPref
      case Some(c) => color := c;
      case None => color := MostStocked();
    }
  }

  /**
   * `store_giveaway`: with four red and two blue shirts, a user who prefers
   * blue gets blue and a user without a preference gets red.
   */
  method StoreGiveaway() returns (giveaway1: ShirtColor, giveaway2: ShirtColor)
    ensures giveaway1 == Blue && giveaway2 == Red
  {
    var store := Inventory([Blue, Red, Red, Red, Blue, Red]);
    giveaway1 := store.Giveaway(Some(Blue));
    giveaway2 := store.Giveaway(None);
    assert Count(store.shirts, Red) == 4 && Count(store.shirts, Blue) == 2 by {
      var s := store.shirts;
      assert s[..1][..0] == [];
      assert Count(s[..1], Red) == 0 && Count(s[..1], Blue) == 1;
      assert s[..2][..1] == s[..1];
      assert Count(s[..2], Red) == 1 && Count(s[..2], Blue) == 1;
      assert s[..3][..2] == s[..2];
      assert Count(s[..3], Red) == 2 && Count(s[..3], Blue) == 1;
      assert s[..4][..3] == s[..3];
      assert Count(s[..4], Red) == 3 && Count(s[..4], Blue) == 1;
      assert s[..5][..4] == s[..4];
      assert Count(s[..5], Red) == 3 && Count(s[..5], Blue) == 2;
      assert s[..6][..5] == s[..5] && s[..6] == s;
    }
  }
}
