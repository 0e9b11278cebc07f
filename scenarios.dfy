/** Short play sessions driven through the public operations, each checking
    what the game promises along the way. */
module Scenarios {
  import opened Config
  import opened Geometry
  import opened Bursts
  import opened Economy
  import opened Profile
  import opened Game

  function NoDraws(): Draws {
    var still := seq(BurstParticles, _ => Particle(Vec3(0.0, 0.0, 0.0), 1.0));
    Draws(Vec3(0.0, 0.0, 0.0), still, still)
  }

  /** Dropping the first moving block where it spawns misses the base: the run
      is lost with score zero and the tower untouched. The close button then
      hides the menu without starting anything, yet the primary action resumes
      the lost run on the same tower instead of resetting it. */
  method LostRunResumes() {
    var profile := new Profile("2026-10-16", []);
    var game := new GameState(profile, 0.0);
    game.PlayButton();
    assert game.playing && game.FreshRun();

    ResolveMiss(-SpawnOffset, InitialSizeX, 0.0, InitialSizeX);
    game.PrimaryAction(NoDraws());
    assert game.gameOver && !game.playing && game.menuOpen;
    assert game.score == 0 && game.FreshRun();
    assert profile.gamesPlayed == 1;

    game.CloseMenuButton();
    assert !game.playing && game.gameOver && !game.menuOpen;
    game.PrimaryAction(NoDraws());
    assert game.playing && !game.gameOver && game.FreshRun();

    game.PrimaryAction(NoDraws());
    assert game.gameOver && profile.gamesPlayed == 2;
  }

  /** The restart button always starts a fresh run, lost or not. */
  method RestartAfterLoss() {
    var profile := new Profile("2026-10-16", []);
    var game := new GameState(profile, 0.0);
    game.PlayButton();
    ResolveMiss(-SpawnOffset, InitialSizeX, 0.0, InitialSizeX);
    game.PrimaryAction(NoDraws());
    assert game.gameOver;
    game.RestartButton();
    assert game.playing && !game.gameOver && game.FreshRun();
  }

  /** While the menu is shown the primary action does nothing. */
  method MenuBlocksInput() {
    var profile := new Profile("2026-10-16", []);
    var game := new GameState(profile, 0.0);
    assert game.menuOpen;
    game.PrimaryAction(NoDraws());
    assert !game.playing && game.FreshRun();
  }

  /** A completed challenge pays its reward once; the stars buy a skin, which is
      then equipped for free, and a second purchase is refused for lack of stars. */
  method ClaimOnceThenShop() {
    var profile := new Profile("2026-10-16", [Challenge(PlaceBlocks, 1, 60, 1, true, false)]);
    var first := profile.Claim(0);
    assert first && profile.stars == 60;
    var second := profile.Claim(0);
    assert !second && profile.stars == 60;

    var bought := profile.BuyOrEquip(Skins, ShopItem("gloss", 60));
    assert bought && profile.stars == 0;
    assert profile.ownedSkins == ["classic", "gloss"] && profile.selectedSkinId == "gloss";
    var back := profile.BuyOrEquip(Skins, ShopItem("classic", 0));
    assert back && profile.stars == 0 && profile.selectedSkinId == "classic";
    var refused := profile.BuyOrEquip(Skins, ShopItem("metal", 120));
    assert !refused && profile.selectedSkinId == "classic" && profile.ownedSkins == ["classic", "gloss"];
  }
}
