/**
 * The table of melt profiles `setProfile` knows: frame rate, frame size,
 * scanning and the sample and display aspect ratios of each named profile.
 */
module Profiles {
  import opened PhpText

  datatype Profile = Profile(
    frameRateNum: int, frameRateDen: int,
    width: int, height: int, progressive: int,
    sampleAspectNum: int, sampleAspectDen: int,
    displayAspectNum: int, displayAspectDen: int)

  /** `$profiles[$name]`, absent for a name the table does not hold. */
  function Lookup(name: string): (p: Option<Profile>)
    ensures p.Some? <==> name in ProfileNames
  {
    match name
    case "atsc_1080p_25" => Some(Profile(25, 1, 1920, 1080, 1, 1, 1, 16, 9))
    case "atsc_1080p_24" => Some(Profile(24, 1, 1920, 1080, 1, 1, 1, 16, 9))
    case "atsc_720p_25" => Some(Profile(25, 1, 1280, 720, 1, 1, 1, 16, 9))
    case "atsc_720p_24" => Some(Profile(25, 1, 1280, 720, 1, 1, 1, 16, 9))
    case "hdv_1080_25p" => Some(Profile(25, 1, 1440, 1080, 1, 4, 3, 16, 9))
    case "hdv_720_25p" => Some(Profile(25, 1, 1280, 720, 1, 1, 1, 16, 9))
    case "dv_pal" => Some(Profile(25, 1, 720, 576, 0, 16, 15, 4, 3))
    case "dv_pal_wide" => Some(Profile(25, 1, 720, 576, 0, 64, 45, 16, 9))
    case _ => None
  }

  const ProfileNames: set<string> := {
    "atsc_1080p_25", "atsc_1080p_24", "atsc_720p_25", "atsc_720p_24",
    "hdv_1080_25p", "hdv_720_25p", "dv_pal", "dv_pal_wide"
  }

  /** Every profile of the table is consistent: whole frames per second
      (so `frame_rate_num` is the frame rate), positive sizes, and a frame
      whose size scaled by the sample aspect gives the display aspect. */
  lemma ProfilesConsistent(name: string)
    requires Lookup(name).Some?
    ensures var p := Lookup(name).value;
      && p.frameRateDen == 1 && p.frameRateNum > 0 && p.width > 0 && p.height > 0
      && p.width * p.sampleAspectNum * p.displayAspectDen == p.height * p.sampleAspectDen * p.displayAspectNum
  {
  }

  /** The profile named `atsc_720p_24` runs at 25 frames per second, like
      `atsc_720p_25`: only the name says 24. */
  lemma Atsc720p24RunsAt25()
    ensures Lookup("atsc_720p_24").Some? && Lookup("atsc_720p_24").value.frameRateNum == 25
    ensures Lookup("atsc_720p_24") == Lookup("atsc_720p_25")
  {
  }
}
