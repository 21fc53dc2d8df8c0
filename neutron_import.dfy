/** The planets of the current game and the particle hook (neutron/import.cpp):
    a planet holds its mass, radius, position, velocity and accumulated
    rotation, moves by its velocity once per tick, measures distances by the
    Euclidean formula, and picks its texture files by planet type. OpenGL
    texture handles stand for the files they are loaded from. */
module NeutronImport {
  import opened Vectors
  import Reals
  import NeutronParticles

  /** The C++ `int`. */
  newtype Int32 = x: int | -0x8000_0000 <= x < 0x8000_0000

  /** `Planet::Type`. */
  datatype PlanetType = Sun | Earth | Moon | Mars | Mercury

  /** The three image files `makePlanet` loads: the colour texture, and the
      normal and specular maps next to it. */
  datatype Textures = Textures(diffuse: string, normal: string, specular: string)

  /** The value of every field of a planet. `Planet` below holds the same
      fields as mutable state. */
  datatype PlanetState = PlanetState(mass: Int32, radius: real, pos: Vec3, vel: Vec3, rotation: Vec3, textures: Textures)

  /** The texture folder and colour file of each planet type; the `default`
      branch of the switch, shared with Earth, cannot be reached from a
      value of the enumeration. */
  function Folder(t: PlanetType): string {
    match t
    case Sun => "textures/planets/sun/"
    case Moon => "textures/planets/moon/"
    case Mercury => "textures/planets/mercury/"
    case Mars => "textures/planets/mars/"
    case Earth => "textures/planets/earth/"
  }

  function ImageName(t: PlanetType): string {
    match t
    case Sun => "sun.jpg"
    case Moon => "moon.jpg"
    case Mercury => "mercury.png"
    case Mars => "mars.png"
    case Earth => "earth.jpg"
  }

  function TexturesOf(t: PlanetType): Textures {
    Textures(Folder(t) + ImageName(t), Folder(t) + "norm.png", Folder(t) + "spec.png")
  }

  /** Every texture of a type lies in that type's own folder under
      textures/planets/. */
  lemma TexturesInFolder(t: PlanetType)
    ensures TexturesOf(t).diffuse[..|Folder(t)|] == Folder(t)
    ensures TexturesOf(t).normal == Folder(t) + "norm.png"
    ensures TexturesOf(t).specular == Folder(t) + "spec.png"
    ensures Folder(t)[..16] == "textures/planets" && Folder(t)[|Folder(t)| - 1] == '/'
  {
    var f := Folder(t);
    assert TexturesOf(t).diffuse[..|f|] == f;
  }

  /** The three files of one type are different. */
  lemma TexturesDistinct(t: PlanetType)
    ensures TexturesOf(t).diffuse != TexturesOf(t).normal && TexturesOf(t).normal != TexturesOf(t).specular
    ensures TexturesOf(t).diffuse != TexturesOf(t).specular
  {
    var f := Folder(t);
    assert TexturesOf(t).diffuse[|f|] != 'n' by {
      assert TexturesOf(t).diffuse[|f|] == ImageName(t)[0];
    }
    assert TexturesOf(t).normal[|f|] == 'n' && TexturesOf(t).specular[|f|] == 's';
  }

  /** Two different types never share a colour or a normal map file. */
  lemma TexturesDiffer(t: PlanetType, u: PlanetType)
    requires t != u
    ensures TexturesOf(t).diffuse != TexturesOf(u).diffuse && TexturesOf(t).normal != TexturesOf(u).normal
  {
    var f, g := Folder(t), Folder(u);
    assert f[17] != g[17] || f[18] != g[18];
    assert TexturesOf(t).diffuse[17] == f[17] && TexturesOf(u).diffuse[17] == g[17];
    assert TexturesOf(t).diffuse[18] == f[18] && TexturesOf(u).diffuse[18] == g[18];
    assert TexturesOf(t).normal[17] == f[17] && TexturesOf(u).normal[17] == g[17];
    assert TexturesOf(t).normal[18] == f[18] && TexturesOf(u).normal[18] == g[18];
  }

  /** The whole texture layout: each type's files in its own folder, distinct
      from each other and from every other type's. */
  lemma TexturesLayout(t: PlanetType, u: PlanetType)
    ensures TexturesOf(t).diffuse[..|Folder(t)|] == Folder(t)
    ensures TexturesOf(t).normal == Folder(t) + "norm.png"
    ensures TexturesOf(t).specular == Folder(t) + "spec.png"
    ensures Folder(t)[..16] == "textures/planets" && Folder(t)[|Folder(t)| - 1] == '/'
    ensures TexturesOf(t).diffuse != TexturesOf(t).normal && TexturesOf(t).normal != TexturesOf(t).specular
    ensures TexturesOf(t).diffuse != TexturesOf(t).specular
    ensures t != u ==> TexturesOf(t).diffuse != TexturesOf(u).diffuse && TexturesOf(t).normal != TexturesOf(u).normal
  {
    TexturesInFolder(t);
    TexturesDistinct(t);
    if t != u {
      TexturesDiffer(t, u);
    }
  }

  /** The radicand of `DistanceFrom`: the squared distance between the two
      positions, under the `fabs` the source wraps around it. */
  function Radicand(a: PlanetState, b: PlanetState): real {
    Fabs(SquaredDistance(a.pos, b.pos))
  }

  function Fabs(v: real): real {
    if v < 0.0 then -v else v
  }

  /** The `fabs` changes nothing, since a sum of squares is already
      non-negative; the radicand is symmetric and zero from a planet to
      itself. */
  lemma RadicandProperties(a: PlanetState, b: PlanetState)
    ensures Radicand(a, b) == SquaredDistance(a.pos, b.pos) >= 0.0
    ensures Radicand(a, b) == Radicand(b, a)
    ensures Radicand(a, a) == 0.0
  {
    RadicandIsSquaredDistance(a, b);
    RadicandIsSquaredDistance(b, a);
    RadicandIsSquaredDistance(a, a);
    SquaredDistanceSymmetric(a.pos, b.pos);
  }

  lemma RadicandIsSquaredDistance(a: PlanetState, b: PlanetState)
    ensures Radicand(a, b) == SquaredDistance(a.pos, b.pos) >= 0.0
  {
    FabsOfNonNegative(SquaredDistance(a.pos, b.pos));
  }

  lemma RadicandNonNegative(a: PlanetState, b: PlanetState)
    ensures Radicand(a, b) >= 0.0
  {
    RadicandIsSquaredDistance(a, b);
  }

  lemma FabsOfNonNegative(v: real)
    requires v >= 0.0
    ensures Fabs(v) == v
  {
  }

  /** `Planet::Tick`: one step along the velocity; the time is ignored. */
  function Moved(s: PlanetState): PlanetState {
    s.(pos := Add(s.pos, s.vel))
  }

  /** The rotation update of `SetShaderVariables`: half the velocity is added
      to the rotation on every frame whose time is not zero. */
  function Spun(s: PlanetState, time: real): PlanetState {
    if time != 0.0 then s.(rotation := Add(s.rotation, Vec3(s.vel.x / 2.0, s.vel.y / 2.0, s.vel.z / 2.0))) else s
  }

  function SpinAll(s: PlanetState, times: seq<real>): PlanetState
    decreases |times|
  {
    if times == [] then s else SpinAll(Spun(s, times[0]), times[1..])
  }

  function CountRunning(times: seq<real>): nat {
    if times == [] then 0 else (if times[0] != 0.0 then 1 else 0) + CountRunning(times[1..])
  }

  /** Over a run of frames, the rotation grows by half the velocity once per
      frame whose time is not zero, so paused frames (time 0) leave it still;
      nothing else about the planet changes. */
  lemma {:induction false} SpinAllRotation(s: PlanetState, times: seq<real>)
    ensures SpinAll(s, times) == s.(rotation := Add(s.rotation, Scale(s.vel, CountRunning(times) as real / 2.0)))
    decreases |times|
  {
    if times != [] {
      var s1 := Spun(s, times[0]);
      SpinAllRotation(s1, times[1..]);
      var c := CountRunning(times[1..]) as real;
      assert SpinAll(s, times) == s1.(rotation := Add(s1.rotation, Scale(s1.vel, c / 2.0)));
      if times[0] != 0.0 {
        assert CountRunning(times) as real / 2.0 == (c + 1.0) / 2.0;
        AddHalfScale(s.rotation, s.vel, c);
      }
    }
  }

  class Planet {
    var mass: Int32
    var radius: real
    var x: real
    var y: real
    var z: real
    var vX: real
    var vY: real
    var vZ: real
    var rotation: Vec3
    /** The files behind `planetTextureID`, `normalMapID` and `specMapID`. */
    var textures: Textures

    function State(): PlanetState
      reads this
    {
      PlanetState(mass, radius, Vec3(x, y, z), Vec3(vX, vY, vZ), rotation, textures)
    }

    /** The constructor stores its arguments unchanged, starts with no
        rotation, and loads the textures of its type. */
    constructor(mass: Int32, radius: real, posX: real, posY: real, posZ: real,
                speedX: real, speedY: real, speedZ: real, t: PlanetType)
      ensures State() == PlanetState(mass, radius, Vec3(posX, posY, posZ), Vec3(speedX, speedY, speedZ), Zero, TexturesOf(t))
    {
      this.mass := mass;
      this.radius := radius;
      x := posX;
      y := posY;
      z := posZ;
      vX := speedX;
      vY := speedY;
      vZ := speedZ;
      rotation := Zero;
      new;
      MakePlanet(t);
    }

    /** `makePlanet`: the texture, normal map and specular map of the type. */
    method MakePlanet(t: PlanetType)
      modifies this
      ensures State() == old(State()).(textures := TexturesOf(t))
    {
      var folder: string;
      var name: string;
      match t {
        case Sun =>
          folder := "textures/planets/sun/";
          name := "sun.jpg";
        case Moon =>
          folder := "textures/planets/moon/";
          name := "moon.jpg";
        case Mercury =>
          folder := "textures/planets/mercury/";
          name := "mercury.png";
        case Mars =>
          folder := "textures/planets/mars/";
          name := "mars.png";
        case Earth =>
          folder := "textures/planets/earth/";
          name := "earth.jpg";
      }
      textures := Textures(folder + name, folder + "norm.png", folder + "spec.png");
    }

    /** `Planet::Tick`. */
    method Tick(time: real)
      modifies this
      ensures State() == Moved(old(State()))
    {
      x := x + vX;
      y := y + vY;
      z := z + vZ;
    }

    /** The radicand of `DistanceFrom`; the square root is left to the
        caller, which compares squares instead. */
    function DistanceRadicand(other: Planet): real
      reads this, other
    {
      Radicand(State(), other.State())
    }

    /** The model-matrix part of `SetShaderVariables` that keeps state: the
        rotation accumulation. */
    method SetShaderVariables(time: real)
      modifies this
      ensures State() == Spun(old(State()), time)
    {
      if time != 0.0 {
        rotation := Add(rotation, Vec3(vX / 2.0, vY / 2.0, vZ / 2.0));
      }
    }
  }

  /** The pool behind the global `Particles`, with the 200 slots of
      `makeParticles`. */
  const PoolSize: nat := 200

  /** `drawParticles` without the drawing: the pool is updated with four new
      particles at the default offset only on frames whose time is not zero. */
  method DrawParticles(pool: NeutronParticles.Generator, deltaTime: real, draws: seq<NeutronParticles.Draw>)
    requires pool.Valid() && pool.cursor.last <= pool.amount && |draws| == 4
    requires deltaTime != 0.0 ==> pool.amount > 0
    modifies pool.particles, pool.cursor
    ensures deltaTime == 0.0 ==> pool.particles[..] == old(pool.particles[..]) && pool.cursor.last == old(pool.cursor.last)
    ensures deltaTime != 0.0 ==>
              var spawned := NeutronParticles.RespawnAll(old(pool.particles[..]), old(pool.cursor.last), draws, NeutronParticles.DefaultOffset);
              pool.particles[..] == NeutronParticles.Decayed(spawned.particles, deltaTime) && pool.cursor.last == spawned.last
  {
    if deltaTime != 0.0 {
      pool.Update(deltaTime, 4, NeutronParticles.DefaultOffset, draws);
    }
  }
}
